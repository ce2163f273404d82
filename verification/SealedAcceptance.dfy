/** Sealed corpus acceptance: what `finalize` leaves behind is a directory whose manifest, tables and
    segments the sealed reader accepts, for every run that ends in a successful finalization. */
module SealedAcceptance {
  import opened Records
  import opened Storage
  import opened Index
  import opened Numbers
  import opened Formats
  import opened Merge
  import opened Writer
  import opened WriterLedger
  import opened WriterStore
  import opened WriterRuns
  import opened Continuity
  import opened LiveReading
  import opened SegmentFiles
  import opened SealedSegments
  import opened CutFile
  import SR = SealedReader
  import DT = DepthTransaction

  // --- Looking entries up ---------------------------------------------------------------------------

  lemma {:induction false} FindIsFirst(index: seq<Entry>, k: nat, es: seq<Entry>, i: nat)
    requires EntriesOf(index, k) == es && DistinctKeys(es) && i < |es|
    ensures SR.FindEntry(index, k, es[i].key) == Some(es[i])
    decreases |index|
  {
    if index[0].segmentNumber == k {
      assert es[0] == index[0] && es[1..] == EntriesOf(index[1..], k);
      if i > 0 {
        assert es[0].key != es[i].key;
        assert DistinctKeys(es[1..]);
        FindIsFirst(index[1..], k, es[1..], i - 1);
      }
    } else {
      assert es == EntriesOf(index[1..], k);
      FindIsFirst(index[1..], k, es, i);
    }
  }

  lemma {:induction false} TableMatches(index: seq<Entry>, k: nat, shard: nat, rows: seq<Record>)
    requires EntriesOf(index, k) == Recompute(k, shard, rows) && DistinctKeys(Recompute(k, shard, rows))
    ensures SR.IndexMatches(index, k, Recompute(k, shard, rows))
  {
    var es := Recompute(k, shard, rows);
    forall i | 0 <= i < |es|
      ensures SR.FindEntry(index, k, es[i].key) == Some(es[i])
    {
      FindIsFirst(index, k, es, i);
    }
  }

  lemma {:induction false} ShardFound(index: seq<Entry>, k: nat, shard: nat)
    requires EntriesOf(index, k) != []
    requires forall i :: 0 <= i < |index| && index[i].segmentNumber == k ==> index[i].shardIndex == shard
    ensures SR.ShardOf(index, k) == Some(shard)
    decreases |index|
  {
    if index[0].segmentNumber != k {
      assert EntriesOf(index, k) == EntriesOf(index[1..], k);
      forall i | 0 <= i < |index[1..]| && index[1..][i].segmentNumber == k
        ensures index[1..][i].shardIndex == shard
      {
        assert index[1..][i] == index[i + 1];
      }
      ShardFound(index[1..], k, shard);
    }
  }

  lemma {:induction false} DistinctInTable(index: seq<Entry>, k: nat, i: nat, j: nat)
    requires DistinctKeys(EntriesOf(index, k)) && i < j < |index| && index[i].segmentNumber == k
    requires index[j].segmentNumber == k
    ensures index[i].key != index[j].key
    decreases |index|
  {
    var es := EntriesOf(index, k);
    var tail := EntriesOf(index[1..], k);
    if i == 0 {
      assert es == [index[0]] + tail;
      EntriesMember(index[1..], k, index[j]);
      assert index[1..][j - 1] == index[j];
      var m :| 0 <= m < |tail| && tail[m] == index[j];
      assert es[m + 1] == index[j] && es[0] == index[0];
    } else {
      assert es == (if index[0].segmentNumber == k then [index[0]] else []) + tail;
      DistinctTail(es, tail, if index[0].segmentNumber == k then [index[0]] else []);
      assert index[1..][i - 1] == index[i] && index[1..][j - 1] == index[j];
      DistinctInTable(index[1..], k, i - 1, j - 1);
    }
  }

  lemma {:induction false} DistinctTail(es: seq<Entry>, tail: seq<Entry>, front: seq<Entry>)
    requires es == front + tail && DistinctKeys(es)
    ensures DistinctKeys(tail)
  {
    forall i, j | 0 <= i < j < |tail|
      ensures tail[i].key != tail[j].key
    {
      assert es[|front| + i] == tail[i] && es[|front| + j] == tail[j];
    }
  }

  // --- Totals ---------------------------------------------------------------------------------------

  /** The rows the entries of segments 1 to n account for. */
  function SumUpTo(index: seq<Entry>, n: nat): nat
    decreases n
  {
    if n == 0 then 0 else SumUpTo(index, n - 1) + SumEntries(EntriesOf(index, n))
  }

  lemma {:induction false} SumUpToCons(e: Entry, index: seq<Entry>, n: nat)
    ensures SumUpTo([e] + index, n) == SumUpTo(index, n) + (if 1 <= e.segmentNumber <= n then e.recordCount else 0)
    decreases n
  {
    if n > 0 {
      SumUpToCons(e, index, n - 1);
      var all := [e] + index;
      assert all[1..] == index;
      var tail := EntriesOf(index, n);
      if e.segmentNumber == n {
        assert EntriesOf(all, n) == [e] + tail && ([e] + tail)[1..] == tail;
      } else {
        assert EntriesOf(all, n) == [] + tail && [] + tail == tail;
      }
    }
  }

  lemma {:induction false} SumPartitions(index: seq<Entry>, n: nat)
    requires forall i :: 0 <= i < |index| ==> 1 <= index[i].segmentNumber <= n
    ensures SumEntries(index) == SumUpTo(index, n)
    decreases |index|
  {
    if index == [] {
      SumOfNone(n);
    } else {
      SumPartitions(index[1..], n);
      SumUpToCons(index[0], index[1..], n);
      assert index == [index[0]] + index[1..];
    }
  }

  lemma {:induction false} SumOfNone(n: nat)
    ensures SumUpTo([], n) == 0
    decreases n
  {
    if n > 0 { SumOfNone(n - 1); }
  }

  /** Rows stored in segments 1 to n. */
  ghost function RowsUpTo(c: Codec, bs: seq<BlockRange>, log: seq<seq<u8>>, n: nat): nat
    requires |bs| == |log|
    decreases n
  {
    if n == 0 then 0 else RowsUpTo(c, bs, log, n - 1) + |SegmentRows(c, bs, log, n)|
  }

  lemma {:induction false} RowsUpToStep(c: Codec, bs: seq<BlockRange>, log: seq<seq<u8>>, n: nat)
    requires |bs| == |log| && bs != []
    ensures var m := |bs| - 1;
            RowsUpTo(c, bs, log, n) == RowsUpTo(c, bs[..m], log[..m], n)
            + (if 1 <= bs[m].segmentNumber <= n then |Rows(c, bs[m], log[m])| else 0)
    decreases n
  {
    if n > 0 { RowsUpToStep(c, bs, log, n - 1); }
  }

  lemma {:induction false} RowsPartition(c: Codec, bs: seq<BlockRange>, log: seq<seq<u8>>, n: nat)
    requires LogOk(c, bs, log) && forall i :: 0 <= i < |bs| ==> 1 <= bs[i].segmentNumber <= n
    ensures RowsUpTo(c, bs, log, n) == SumRecords(bs)
    decreases |bs|
  {
    if bs == [] {
      RowsOfNone(c, n);
    } else {
      var m := |bs| - 1;
      LogPrefix(c, bs, log, m);
      RowsPartition(c, bs[..m], log[..m], n);
      RowsUpToStep(c, bs, log, n);
      assert BlockOk(c, bs[m], log[m]);
    }
  }

  lemma {:induction false} RowsOfNone(c: Codec, n: nat)
    ensures RowsUpTo(c, [], [], n) == 0
    decreases n
  {
    if n > 0 { RowsOfNone(c, n - 1); }
  }

  /** Bytes the files of segments 1 to n occupy, frames included. */
  function BytesUpTo(bs: seq<BlockRange>, n: nat): nat
    decreases n
  {
    if n == 0 then 0 else BytesUpTo(bs, n - 1) + SEGMENT_HEADER_BYTES + StoredOf(bs, n) + SEGMENT_FOOTER_BYTES
  }

  lemma {:induction false} BytesUpToStep(bs: seq<BlockRange>, n: nat)
    requires bs != []
    ensures var m := |bs| - 1;
            BytesUpTo(bs, n) == BytesUpTo(bs[..m], n) +
                (if 1 <= bs[m].segmentNumber <= n then StoredBytes(bs[m]) else 0)
    decreases n
  {
    if n > 0 { BytesUpToStep(bs, n - 1); }
  }

  lemma {:induction false} BytesPartition(bs: seq<BlockRange>, n: nat)
    requires forall i :: 0 <= i < |bs| ==> 1 <= bs[i].segmentNumber <= n
    ensures BytesUpTo(bs, n) == SumStored(bs) + n * (SEGMENT_HEADER_BYTES + SEGMENT_FOOTER_BYTES)
    decreases |bs|
  {
    if bs == [] {
      BytesOfNone(n);
    } else {
      BytesPartition(bs[..|bs| - 1], n);
      BytesUpToStep(bs, n);
    }
  }

  lemma {:induction false} BytesOfNone(n: nat)
    ensures BytesUpTo([], n) == n * (SEGMENT_HEADER_BYTES + SEGMENT_FOOTER_BYTES)
    decreases n
  {
    if n > 0 { BytesOfNone(n - 1); }
  }

  lemma {:induction false} BytesMonotone(bs: seq<BlockRange>, k: nat, n: nat)
    requires k <= n
    ensures BytesUpTo(bs, k) <= BytesUpTo(bs, n)
    decreases n
  {
    if k < n { BytesMonotone(bs, k, n - 1); }
  }

  // --- Which segments and keys occur --------------------------------------------------------------------

  lemma {:induction false} RecomputeKeys(k: nat, shard: nat, rows: seq<Record>, key: Key)
    ensures HasKey(Recompute(k, shard, rows), key) <==> exists i :: 0 <= i < |rows| && KeyOf(rows[i]) == key
    decreases |rows|
  {
    if rows != [] {
      var m := |rows| - 1;
      RecomputeKeys(k, shard, rows[..m], key);
      ObserveKeys(Recompute(k, shard, rows[..m]), k, shard, rows[m], key);
      if exists i :: 0 <= i < m && KeyOf(rows[..m][i]) == key {
        var i :| 0 <= i < m && KeyOf(rows[..m][i]) == key;
        assert KeyOf(rows[i]) == key;
      }
      if exists i :: 0 <= i < |rows| && KeyOf(rows[i]) == key {
        var i :| 0 <= i < |rows| && KeyOf(rows[i]) == key;
        if i < m { assert KeyOf(rows[..m][i]) == key; }
      }
    }
  }

  lemma {:induction false} FewSegments(index: seq<Entry>)
    ensures |SR.Segments(index)| <= |index|
    decreases |index|
  {
    if index != [] {
      var m := |index| - 1;
      FewSegments(index[..m]);
      assert SR.Segments(index) == SR.Segments(index[..m]) + {index[m].segmentNumber} by {
        forall x | x in SR.Segments(index)
          ensures x in SR.Segments(index[..m]) + {index[m].segmentNumber}
        {
          var i :| 0 <= i < |index| && index[i].segmentNumber == x;
          if i < m { assert index[..m][i].segmentNumber == x; }
        }
        forall x | x in SR.Segments(index[..m])
          ensures x in SR.Segments(index)
        {
          var i :| 0 <= i < m && index[..m][i].segmentNumber == x;
          assert index[i].segmentNumber == x;
        }
      }
    } else {
      assert SR.Segments(index) == {};
    }
  }

  // === What finalization leaves behind =======================================================================

  // --- What finalization leaves behind ------------------------------------------------------------------

  /** The manifest's own clauses about the sealing. */
  ghost predicate SealedManifest(c: Codec, l: Layout, t: State, reason: StopReason) {
    var m := t.manifest;
    && m.indexCount == |t.index| && m.stopReason == reason && m.complete == (if reason == Error then 0 else 1)
    && m.sourcesCrc == c.crc(Pack(l.sourceBytes, t.sources)) && m.indexCrc == c.crc(Pack(l.entryBytes, t.index))
    && m.gapsCrc == c.crc(Pack(l.gapBytes, t.gaps)) && m.projectedBytes == t.projectedBytes
    && m.startedReceiveNs == (if m.firstReceiveNs > 0 then Min(t.config.startedReceiveNs, m.firstReceiveNs)
        else t.config.startedReceiveNs)
    && m.finalizedReceiveNs >= t.config.startedReceiveNs && m.finalizedReceiveNs >= m.lastReceiveNs
  }

  ghost predicate SealedState(c: Codec, l: Layout, t: State, H: seq<Record>, reason: StopReason) {
    && Inv(c, t, H) && SealedManifest(c, l, t, reason)
    && (forall n :: 0 <= n < |t.segments| ==> !t.segments[n].open)
    && (forall n :: 0 <= n < |t.depth| ==> t.depth[n].Idle?)
  }

  lemma {:induction false} PublishClosed(c: Codec, s: State, H: seq<Record>, now: nat)
    requires Lawful(c) && Inv(c, s, H) && PublishCut(c, s, now).Done?
    ensures var t := PublishCut(c, s, now).state;
            && t.sources == s.sources && t.index == s.index && t.gaps == s.gaps && t.manifest == s.manifest
            && t.config == s.config
            && t.depth == s.depth && |t.segments| == |s.segments|
            && forall n :: 0 <= n < |s.segments| ==> t.segments[n].open == s.segments[n].open
  {
    if s.active && s.cutGeneration != U64_MAX { FlushAllKeeps(c, s, H); }
  }

  lemma {:induction false} FinalizeCloses(
      c: Codec, l: Layout, s: State, H: seq<Record>, reason: StopReason, at: i64, now: nat)
    requires Lawful(c) && Inv(c, s, H) && Finalize(c, l, s, reason, at, now).Done?
    requires Finalize(c, l, s, reason, at, now).status == Ok
    ensures var t := Finalize(c, l, s, reason, at, now).state;
            SealedManifest(c, l, t, reason) && forall n :: 0 <= n < |t.segments| ==> !t.segments[n].open
  {
    var u := SealAll(c, s, |s.segments|).value;
    SealAllKeeps(c, s, H);
    ManifestKeeps(c, l, u, H, reason, at);
    var v := u.(manifest := FinalManifest(c, l, u, reason, at));
    PublishClosed(c, v, H, now);
    SealedFields(c, l, u, reason, at, PublishCut(c, v, now).state);
  }

  lemma {:induction false} FinalizeSeals(
      c: Codec, l: Layout, s: State, H: seq<Record>, reason: StopReason, at: i64, now: nat)
    requires Lawful(c) && Inv(c, s, H) && Finalize(c, l, s, reason, at, now).Done?
    requires Finalize(c, l, s, reason, at, now).status == Ok
    ensures SealedState(c, l, Finalize(c, l, s, reason, at, now).state, H, reason)
  {
    FinalizeKeeps(c, l, s, H, reason, at, now);
    FinalizeCloses(c, l, s, H, reason, at, now);
    SealDepth(c, l, s, H, reason, at, now);
  }

  lemma {:induction false} SealedFields(c: Codec, l: Layout, u: State, reason: StopReason, at: i64, w: State)
    requires w.sources == u.sources && w.index == u.index && w.gaps == u.gaps && w.config == u.config
    requires w.manifest == FinalManifest(c, l, u, reason, at)
    ensures SealedManifest(c, l, w.(manifest := w.manifest.(projectedBytes := w.projectedBytes), active := false),
            reason)
  {
  }

  /** The directory on disk after a successful finalization. */
  ghost function OnDisk(c: Codec, l: Layout, t: State): SR.Archive
    requires |t.blocks| == |t.log|
  {
    SR.Archive(t.manifest.(manifestCrc := SR.ManifestCrc(c, l, t.manifest)), t.sources, t.index, t.gaps,
               map k | k in t.files :: FileOfSegment(c, t, k))
  }

  // --- Segments -------------------------------------------------------------------------------------

  /** Segment numbers 1 to next - 1 are exactly the files. */
  lemma {:induction false} EveryFile(c: Codec, l: Layout, t: State, H: seq<Record>, reason: StopReason, k: nat)
    requires SealedState(c, l, t, H, reason)
    ensures k in t.files <==> 1 <= k < t.nextSegmentNumber
    ensures k in t.files ==>
            t.files[k].shardIndex < |t.segments| && FileOk(c, t.files[k], k, t.config.producerEpoch, t.blocks, t.log)
  {
    assert Accounted(t.files, t.segments, t.nextSegmentNumber, k);
    assert Filed(c, t.files, t.config.producerEpoch, t.segments, t.blocks, t.log, t.nextSegmentNumber, k);
    NoneOpen(t.segments, k);
  }

  lemma {:induction false} NoneOpen(gs: seq<Segment>, k: nat)
    requires forall n :: 0 <= n < |gs| ==> !gs[n].open
    ensures !IsOpen(gs, k)
  {
    forall n
      ensures !OpenAt(gs, n, k)
    {
    }
  }

  lemma {:induction false} SealedBlocks(c: Codec, l: Layout, t: State, H: seq<Record>, reason: StopReason)
    requires SealedState(c, l, t, H, reason)
    ensures AllFiled(t.blocks, t.files)
    ensures forall i :: 0 <= i < |t.blocks| ==> 1 <= t.blocks[i].segmentNumber <= t.nextSegmentNumber - 1
  {
    forall i | 0 <= i < |t.blocks|
      ensures InFile(t.blocks, t.files, i) && 1 <= t.blocks[i].segmentNumber <= t.nextSegmentNumber - 1
    {
      assert Numbered(t.blocks, t.nextSegmentNumber, i);
      EveryFile(c, l, t, H, reason, t.blocks[i].segmentNumber);
    }
  }

  function UpTo(n: nat): (s: set<nat>)
    ensures |s| == n
    ensures forall k :: k in s <==> 1 <= k <= n
    decreases n
  {
    if n == 0 then {} else UpTo(n - 1) + {n}
  }

  lemma {:induction false} CountFiles(c: Codec, l: Layout, t: State, H: seq<Record>, reason: StopReason)
    requires SealedState(c, l, t, H, reason)
    ensures t.manifest.segmentCount == |t.files| == t.nextSegmentNumber - 1
  {
    var all := UpTo(t.nextSegmentNumber - 1);
    forall k: nat
      ensures k in t.files.Keys <==> k in all
    {
      EveryFile(c, l, t, H, reason, k);
    }
    assert t.files.Keys == all;
    assert |t.files| == |t.files.Keys|;
  }

  lemma {:induction false} ClosedStream(c: Codec, l: Layout, t: State, H: seq<Record>, reason: StopReason, n: nat)
    requires SealedState(c, l, t, H, reason) && n < |t.segments|
    ensures ShardRows(c, t.blocks, t.log, n) == OfShard(H, n) && ShardGood(OfShard(H, n), n, |t.sources|)
    ensures DT.Replay(OfShard(H, n)) == Some(DT.Idle)
  {
    assert ShardAt(c, t, H, n) && StreamAt(c, t, n) && SegmentAt(c, t, n);
    assert ShardRows(c, t.blocks, t.log, n) + [] == ShardRows(c, t.blocks, t.log, n);
  }

  /** The rows of segment k are good rows of its shard. */
  lemma {:induction false} SealedRowsGood(c: Codec, l: Layout, t: State, H: seq<Record>, reason: StopReason, k: nat)
    requires SealedState(c, l, t, H, reason) && k in t.files
    ensures RowsGood(SegmentRows(c, t.blocks, t.log, k), t.files[k].shardIndex, |t.sources|)
  {
    EveryFile(c, l, t, H, reason, k);
    SealedBlocks(c, l, t, H, reason);
    var at := SegmentInStream(c, t.blocks, t.log, t.files, t.nextSegmentNumber, k);
    ClosedStream(c, l, t, H, reason, t.files[k].shardIndex);
    SliceGood(OfShard(H, t.files[k].shardIndex), at, SegmentRows(c, t.blocks, t.log, k), t.files[k].shardIndex,
        |t.sources|);
  }

  lemma {:induction false} BlocksWithinRows(c: Codec, bs: seq<BlockRange>, log: seq<seq<u8>>, k: nat)
    requires LogOk(c, bs, log)
    ensures CountOf(bs, k) <= |SegmentRows(c, bs, log, k)|
    ensures SegmentRows(c, bs, log, k) != [] ==> CountOf(bs, k) != 0
    decreases |bs|
  {
    if bs != [] {
      var m := |bs| - 1;
      LogPrefix(c, bs, log, m);
      BlocksWithinRows(c, bs[..m], log[..m], k);
      assert BlockOk(c, bs[m], log[m]);
    }
  }

  lemma {:induction false} FileOpens(c: Codec, l: Layout, t: State, H: seq<Record>, reason: StopReason, k: nat)
    requires Lawful(c) && SealedState(c, l, t, H, reason) && k in t.files
    ensures HeaderOpens(FileOfSegment(c, t, k), k, t.files[k].shardIndex, t.config.producerEpoch)
    ensures ReadSegment(c, FileOfSegment(c, t, k), |t.sources|) == Some(SegmentRows(c, t.blocks, t.log, k))
  {
    var rows := SegmentRows(c, t.blocks, t.log, k);
    EveryFile(c, l, t, H, reason, k);
    SealedRowsGood(c, l, t, H, reason, k);
    BlocksWithinRows(c, t.blocks, t.log, k);
    FileBodyLength(c, t.blocks, t.log, k);
    ReceiveBounds(rows);
    SegmentReadsBack(c, t.blocks, t.log, FileOfSegment(c, t, k), k, |t.sources|);
  }

  // --- The index --------------------------------------------------------------------------------------

  lemma {:induction false} SegmentEntries(c: Codec, l: Layout, t: State, H: seq<Record>, reason: StopReason, k: nat)
    requires SealedState(c, l, t, H, reason) && k in t.files
    ensures var rows, shard := SegmentRows(c, t.blocks, t.log, k), t.files[k].shardIndex;
            && EntriesOf(t.index, k) == Recompute(k, shard, rows) && EntriesOk(Recompute(k, shard, rows), k, shard)
            && SumEntries(EntriesOf(t.index, k)) == |rows| && EntriesOf(t.index, k) != []
  {
    EveryFile(c, l, t, H, reason, k);
    SealedRowsGood(c, l, t, H, reason, k);
    assert FileIndexed(c, t.files, t.index, t.blocks, t.log, k);
    RecomputeOk(k, t.files[k].shardIndex, SegmentRows(c, t.blocks, t.log, k));
  }

  /** Every entry of the table comes from a row of its segment. */
  lemma {:induction false} EntryFromRow(
      c: Codec, l: Layout, t: State, H: seq<Record>, reason: StopReason, i: nat) returns (j: nat)
    requires SealedState(c, l, t, H, reason) && i < |t.index|
    ensures var k := t.index[i].segmentNumber;
            && k in t.files && EntryOk(t.index[i], k, t.files[k].shardIndex)
            && j < |SegmentRows(c, t.blocks, t.log, k)|
            && KeyOf(SegmentRows(c, t.blocks, t.log, k)[j]) == t.index[i].key
  {
    var k := t.index[i].segmentNumber;
    assert EntryNumbered(t.index, t.nextSegmentNumber, i);
    EveryFile(c, l, t, H, reason, k);
    SegmentEntries(c, l, t, H, reason, k);
    var rows, shard := SegmentRows(c, t.blocks, t.log, k), t.files[k].shardIndex;
    var es := Recompute(k, shard, rows);
    EntriesMember(t.index, k, t.index[i]);
    var e :| 0 <= e < |es| && es[e] == t.index[i];
    assert EntryOk(es[e], k, shard) && HasKey(es, t.index[i].key);
    RecomputeKeys(k, shard, rows, t.index[i].key);
    j :| 0 <= j < |rows| && KeyOf(rows[j]) == t.index[i].key;
  }

  lemma {:induction false} EntryRecounts(c: Codec, l: Layout, t: State, H: seq<Record>, reason: StopReason, i: nat)
    requires SealedState(c, l, t, H, reason) && i < |t.index|
    ensures Recounts(t.index[i], SegmentRows(c, t.blocks, t.log, t.index[i].segmentNumber))
  {
    var k := t.index[i].segmentNumber;
    assert EntryNumbered(t.index, t.nextSegmentNumber, i);
    EveryFile(c, l, t, H, reason, k);
    SegmentEntries(c, l, t, H, reason, k);
    SealedRowsGood(c, l, t, H, reason, k);
    RecomputeIndexes(k, t.files[k].shardIndex, SegmentRows(c, t.blocks, t.log, k));
    EntriesMember(t.index, k, t.index[i]);
  }

  lemma {:induction false} EntryAccepted(c: Codec, l: Layout, t: State, H: seq<Record>, reason: StopReason, i: nat)
    requires SealedState(c, l, t, H, reason) && i < |t.index|
    ensures SR.EntryHolds(t.index[i], t.manifest, |t.sources|)
  {
    var j := EntryFromRow(c, l, t, H, reason, i);
    var k := t.index[i].segmentNumber;
    SealedRowsGood(c, l, t, H, reason, k);
    EveryFile(c, l, t, H, reason, k);
    CountFiles(c, l, t, H, reason);
    assert ValidRecord(SegmentRows(c, t.blocks, t.log, k)[j]);
  }

  lemma {:induction false} EntriesConsistent(c: Codec, l: Layout, t: State, H: seq<Record>, reason: StopReason)
    requires SealedState(c, l, t, H, reason)
    ensures SR.EntriesConsistent(t.index)
  {
    forall i, j | 0 <= i < j < |t.index|
      ensures SR.EntriesAgree(t.index[i], t.index[j])
    {
      if t.index[i].segmentNumber == t.index[j].segmentNumber {
        var x := EntryFromRow(c, l, t, H, reason, i);
        var y := EntryFromRow(c, l, t, H, reason, j);
        SegmentEntries(c, l, t, H, reason, t.index[i].segmentNumber);
        DistinctInTable(t.index, t.index[i].segmentNumber, i, j);
      }
    }
  }

  lemma {:induction false} IndexedSegments(c: Codec, l: Layout, t: State, H: seq<Record>, reason: StopReason)
    requires SealedState(c, l, t, H, reason)
    ensures SR.Segments(t.index) == t.files.Keys && |t.files| <= |t.index|
  {
    forall k: nat
      ensures k in SR.Segments(t.index) <==> k in t.files.Keys
    {
      if k in SR.Segments(t.index) {
        var i :| 0 <= i < |t.index| && t.index[i].segmentNumber == k;
        var j := EntryFromRow(c, l, t, H, reason, i);
      }
      if k in t.files {
        SegmentEntries(c, l, t, H, reason, k);
        var e := EntriesOf(t.index, k)[0];
        EntriesMember(t.index, k, e);
        var i :| 0 <= i < |t.index| && t.index[i] == e;
        assert t.index[i].segmentNumber == k;
      }
    }
    assert SR.Segments(t.index) == t.files.Keys;
    FewSegments(t.index);
    assert |t.files| == |t.files.Keys|;
  }

  /** The index counts the rows of the first n segments. */
  ghost predicate Counted(c: Codec, index: seq<Entry>, bs: seq<BlockRange>, log: seq<seq<u8>>, n: nat) {
    |bs| == |log| && SumUpTo(index, n) == RowsUpTo(c, bs, log, n)
  }

  ghost predicate SegmentCounted(c: Codec, index: seq<Entry>, bs: seq<BlockRange>, log: seq<seq<u8>>, k: nat) {
    |bs| == |log| && SumEntries(EntriesOf(index, k)) == |SegmentRows(c, bs, log, k)|
  }

  lemma {:induction false} CountedAll(c: Codec, index: seq<Entry>, bs: seq<BlockRange>, log: seq<seq<u8>>, n: nat)
    requires |bs| == |log|
    requires forall k {:trigger SegmentCounted(c, index, bs, log, k)} :: 1 <= k <= n ==>
              SegmentCounted(c, index, bs, log, k)
    ensures Counted(c, index, bs, log, n)
    decreases n
  {
    if n > 0 {
      CountedAll(c, index, bs, log, n - 1);
      assert SegmentCounted(c, index, bs, log, n);
    }
  }

  lemma {:induction false} IndexedRows(c: Codec, l: Layout, t: State, H: seq<Record>, reason: StopReason, n: nat)
    requires SealedState(c, l, t, H, reason) && n < t.nextSegmentNumber
    ensures Counted(c, t.index, t.blocks, t.log, n)
  {
    forall k | 1 <= k <= n
      ensures SegmentCounted(c, t.index, t.blocks, t.log, k)
    {
      EveryFile(c, l, t, H, reason, k);
      SegmentEntries(c, l, t, H, reason, k);
    }
    CountedAll(c, t.index, t.blocks, t.log, n);
  }

  /** The index accounts for every record of the corpus once. */
  lemma {:induction false} IndexTotals(c: Codec, l: Layout, t: State, H: seq<Record>, reason: StopReason)
    requires SealedState(c, l, t, H, reason)
    ensures SumEntries(t.index) == t.manifest.recordCount == RowsUpTo(c, t.blocks, t.log,
            t.nextSegmentNumber - 1) <= U64_MAX
  {
    var n := t.nextSegmentNumber - 1;
    forall i | 0 <= i < |t.index|
      ensures 1 <= t.index[i].segmentNumber <= n
    {
      assert EntryNumbered(t.index, t.nextSegmentNumber, i);
    }
    SumPartitions(t.index, n);
    IndexedRows(c, l, t, H, reason, n);
    SealedBlocks(c, l, t, H, reason);
    RowsPartition(c, t.blocks, t.log, n);
    forall i | 0 <= i < |t.segments|
      ensures t.segments[i].pending == []
    {
      assert SegmentAt(c, t, i);
    }
    NoPending(t.segments);
    RecordsWithin(c, t);
  }

  /** No accepted row is older than its source in the catalog. */
  ghost predicate RowCovered(t: State, r: Record) {
    0 < r.sourceId <= |t.sources| && r.sourceGeneration >= t.sources[r.sourceId - 1].initialGeneration
  }

  ghost predicate GenerationsCovered(t: State, H: seq<Record>) { forall i :: 0 <= i < |H| ==> RowCovered(t, H[i]) }

  lemma {:induction false} OfShardMember(rs: seq<Record>, n: nat, r: Record)
    ensures r in OfShard(rs, n) <==> r in rs && r.shardIndex == n
    decreases |rs|
  {
    if rs != [] {
      OfShardMember(rs[1..], n, r);
      assert rs == [rs[0]] + rs[1..];
    }
  }

  /** Rows of a segment are accepted rows, and every accepted row is in a segment. */
  lemma {:induction false} SegmentRowAccepted(
      c: Codec, l: Layout, t: State, H: seq<Record>, reason: StopReason, k: nat, j: nat)
    requires SealedState(c, l, t, H, reason) && k in t.files && j < |SegmentRows(c, t.blocks, t.log, k)|
    ensures SegmentRows(c, t.blocks, t.log, k)[j] in H
  {
    EveryFile(c, l, t, H, reason, k);
    SealedBlocks(c, l, t, H, reason);
    var rows, shard := SegmentRows(c, t.blocks, t.log, k), t.files[k].shardIndex;
    var at := SegmentInStream(c, t.blocks, t.log, t.files, t.nextSegmentNumber, k);
    ClosedStream(c, l, t, H, reason, shard);
    assert rows[j] == OfShard(H, shard)[at + j];
    OfShardMember(H, shard, rows[j]);
  }

  lemma {:induction false} JoinedMember(
      c: Codec, bs: seq<BlockRange>, log: seq<seq<u8>>, files: map<nat, SegmentHeader>, shard: nat, n: nat, r: Record)
    returns (k: nat)
    requires |bs| == |log| && r in Joined(c, bs, log, files, shard, n)
    ensures 1 <= k <= n && k in files && r in SegmentRows(c, bs, log, k)
    decreases n
  {
    if r in Joined(c, bs, log, files, shard, n - 1) {
      k := JoinedMember(c, bs, log, files, shard, n - 1, r);
    } else {
      k := n;
    }
  }

  lemma {:induction false} JoinsToMember(
      c: Codec, bs: seq<BlockRange>, log: seq<seq<u8>>, files: map<nat, SegmentHeader>, shard: nat, n: nat,
      rows: seq<Record>, r: Record) returns (k: nat)
    requires |bs| == |log| && JoinsTo(c, bs, log, files, shard, n, rows) && r in rows
    ensures 1 <= k <= n && k in files && r in SegmentRows(c, bs, log, k)
  {
    k := JoinedMember(c, bs, log, files, shard, n, r);
  }

  lemma {:induction false} StoredRow(
      c: Codec, bs: seq<BlockRange>, log: seq<seq<u8>>, files: map<nat, SegmentHeader>, next: nat, H: seq<Record>,
      r: Record)
    returns (k: nat)
    requires r in H && Joinable(c, bs, log, files, next, r.shardIndex, OfShard(H, r.shardIndex))
    ensures k in files && r in SegmentRows(c, bs, log, k)
  {
    OfShardMember(H, r.shardIndex, r);
    JoinsToShard(c, bs, log, files, next, r.shardIndex, OfShard(H, r.shardIndex));
    k := JoinsToMember(c, bs, log, files, r.shardIndex, next - 1, OfShard(H, r.shardIndex), r);
  }

  lemma {:induction false} AcceptedRowStored(
      c: Codec, l: Layout, t: State, H: seq<Record>, reason: StopReason, i: nat) returns (k: nat)
    requires SealedState(c, l, t, H, reason) && i < |H|
    ensures k in t.files && H[i] in SegmentRows(c, t.blocks, t.log, k)
  {
    assert RowInRange(t, H, i);
    SealedJoinable(c, l, t, H, reason, H[i].shardIndex);
    k := StoredRow(c, t.blocks, t.log, t.files, t.nextSegmentNumber, H, H[i]);
  }

  /** The segments up to n of a shard hold exactly these rows. */
  ghost predicate JoinsTo(
      c: Codec, bs: seq<BlockRange>, log: seq<seq<u8>>, files: map<nat, SegmentHeader>, shard: nat, n: nat,
      rows: seq<Record>)
    requires |bs| == |log|
  {
    Joined(c, bs, log, files, shard, n) == rows
  }

  lemma {:induction false} JoinsToShard(
      c: Codec, bs: seq<BlockRange>, log: seq<seq<u8>>, files: map<nat, SegmentHeader>, next: nat, shard: nat,
      rows: seq<Record>)
    requires Joinable(c, bs, log, files, next, shard, rows)
    ensures JoinsTo(c, bs, log, files, shard, next - 1, rows)
  {
    JoinedIsShard(c, bs, log, files, next, shard);
  }

  ghost predicate Joinable(
      c: Codec, bs: seq<BlockRange>, log: seq<seq<u8>>, files: map<nat, SegmentHeader>, next: nat, shard: nat,
      rows: seq<Record>) {
    && |bs| == |log| && 1 <= next && BlocksOwned(bs, next) && AllFiled(bs, files)
    && ShardRows(c, bs, log, shard) == rows
  }

  lemma {:induction false} SealedJoinable(c: Codec, l: Layout, t: State, H: seq<Record>, reason: StopReason, shard: nat)
    requires SealedState(c, l, t, H, reason) && shard < |t.segments|
    ensures Joinable(c, t.blocks, t.log, t.files, t.nextSegmentNumber, shard, OfShard(H, shard))
  {
    ClosedStream(c, l, t, H, reason, shard);
    SealedBlocks(c, l, t, H, reason);
  }

  lemma {:induction false} StreamJoins(c: Codec, l: Layout, t: State, H: seq<Record>, reason: StopReason, shard: nat)
    requires SealedState(c, l, t, H, reason) && shard < |t.segments|
    ensures JoinsTo(c, t.blocks, t.log, t.files, shard, t.nextSegmentNumber - 1, OfShard(H, shard))
  {
    SealedJoinable(c, l, t, H, reason, shard);
    JoinsToShard(c, t.blocks, t.log, t.files, t.nextSegmentNumber, shard, OfShard(H, shard));
  }

  /** An entry passes the catalog check exactly when its rows do. */
  lemma {:induction false} EntriesCovered(c: Codec, l: Layout, t: State, H: seq<Record>, reason: StopReason)
    requires SealedState(c, l, t, H, reason)
    ensures (forall i :: 0 <= i < |t.index| ==>
            SR.EntryHolds(t.index[i], t.manifest, |t.sources|) && SR.NotBefore(t.index[i], t.sources))
            <==> GenerationsCovered(t, H)
  {
    forall i | 0 <= i < |t.index|
      ensures SR.EntryHolds(t.index[i], t.manifest, |t.sources|)
      ensures GenerationsCovered(t, H) ==> SR.NotBefore(t.index[i], t.sources)
    {
      EntryAccepted(c, l, t, H, reason, i);
      EntryCovered(c, l, t, H, reason, i);
    }
    if forall i :: 0 <= i < |t.index| ==>
        SR.EntryHolds(t.index[i], t.manifest, |t.sources|) && SR.NotBefore(t.index[i], t.sources) {
      forall i | 0 <= i < |H|
        ensures RowCovered(t, H[i])
      {
        RowIndexed(c, l, t, H, reason, i);
      }
    }
  }

  lemma {:induction false} EntryCovered(c: Codec, l: Layout, t: State, H: seq<Record>, reason: StopReason, i: nat)
    requires SealedState(c, l, t, H, reason) && i < |t.index| && SR.EntryHolds(t.index[i], t.manifest, |t.sources|)
    ensures GenerationsCovered(t, H) ==> SR.NotBefore(t.index[i], t.sources)
  {
    var j := EntryFromRow(c, l, t, H, reason, i);
    var k := t.index[i].segmentNumber;
    var r := SegmentRows(c, t.blocks, t.log, k)[j];
    SegmentRowAccepted(c, l, t, H, reason, k, j);
    var h :| 0 <= h < |H| && H[h] == r;
    assert GenerationsCovered(t, H) ==> RowCovered(t, H[h]);
  }

  /** A row of a segment has its entry in the table. */
  lemma {:induction false} RowEntry(
      index: seq<Entry>, k: nat, shard: nat, rows: seq<Record>, r: Record) returns (x: nat)
    requires EntriesOf(index, k) == Recompute(k, shard, rows) && r in rows
    ensures x < |index| && index[x].key == KeyOf(r)
  {
    var j :| 0 <= j < |rows| && rows[j] == r;
    RecomputeKeys(k, shard, rows, KeyOf(r));
    assert KeyOf(rows[j]) == KeyOf(r);
    var es := Recompute(k, shard, rows);
    var e :| 0 <= e < |es| && es[e].key == KeyOf(r);
    EntriesMember(index, k, es[e]);
    x :| 0 <= x < |index| && index[x] == es[e];
  }

  lemma {:induction false} RowIndexed(c: Codec, l: Layout, t: State, H: seq<Record>, reason: StopReason, i: nat)
    requires SealedState(c, l, t, H, reason) && i < |H|
    requires forall e :: 0 <= e < |t.index| ==>
              SR.EntryHolds(t.index[e], t.manifest, |t.sources|) && SR.NotBefore(t.index[e], t.sources)
    ensures RowCovered(t, H[i])
  {
    assert RowInRange(t, H, i);
    var k := AcceptedRowStored(c, l, t, H, reason, i);
    SegmentEntries(c, l, t, H, reason, k);
    var x := RowEntry(t.index, k, t.files[k].shardIndex, SegmentRows(c, t.blocks, t.log, k), H[i]);
    assert SR.NotBefore(t.index[x], t.sources);
  }

  /** The sealed index passes the reader's own checks if and only if no accepted row carries a
      generation older than the one its source was catalogued with. */
  lemma {:induction false} IndexAccepted(c: Codec, l: Layout, t: State, H: seq<Record>, reason: StopReason)
    requires SealedState(c, l, t, H, reason)
    ensures SR.IndexHolds(OnDisk(c, l, t)) <==> GenerationsCovered(t, H)
  {
    EntriesCovered(c, l, t, H, reason);
    EntriesConsistent(c, l, t, H, reason);
    IndexTotals(c, l, t, H, reason);
    IndexedSegments(c, l, t, H, reason);
    CountFiles(c, l, t, H, reason);
  }

  // === Manifest, tables and scan =============================================================================

  // --- Manifest -----------------------------------------------------------------------------------

  lemma {:induction false} HistoryPositive(s: State, H: seq<Record>)
    requires forall i {:trigger RowInRange(s, H, i)} :: 0 <= i < |H| ==> RowInRange(s, H, i)
    ensures forall i :: 0 <= i < |H| ==> H[i].receiveRealtimeNs > 0
  {
    forall i | 0 <= i < |H|
      ensures H[i].receiveRealtimeNs > 0
    {
      assert RowInRange(s, H, i);
    }
  }

  /** The replay anchor lies between the start and the end of the capture. */
  lemma {:induction false} AnchorWithin(c: Codec, l: Layout, t: State, H: seq<Record>, reason: StopReason)
    requires SealedState(c, l, t, H, reason)
    ensures var m := t.manifest;
            && 0 < m.startedReceiveNs <= m.replayAnchorReceiveNs <= m.finalizedReceiveNs
            && (if H != [] then 0 < m.firstReceiveNs <= m.lastReceiveNs
                else m.firstReceiveNs == 0 && m.lastReceiveNs == 0)
  {
    HistoryPositive(t, H);
    ReceiveBounds(H);
  }

  /** Records, segments and index entries come and go together. */
  lemma {:induction false} AllOrNothing(c: Codec, l: Layout, t: State, H: seq<Record>, reason: StopReason)
    requires SealedState(c, l, t, H, reason)
    ensures (t.manifest.recordCount != 0) == (|t.files| != 0) == (|t.index| != 0)
    ensures H != [] <==> t.manifest.recordCount != 0
  {
    IndexedSegments(c, l, t, H, reason);
    CountFiles(c, l, t, H, reason);
    if H != [] { var k := AcceptedRowStored(c, l, t, H, reason, 0); }
    if |t.files| != 0 {
      var k := 1;
      EveryFile(c, l, t, H, reason, k);
      SegmentRowAccepted(c, l, t, H, reason, k, 0);
    }
    if |t.index| != 0 {
      var j := EntryFromRow(c, l, t, H, reason, 0);
    }
  }

  lemma {:induction false} IndexFits(c: Codec, t: State)
    requires Ledger(c, t)
    ensures |t.index| <= t.config.maximumBytes / INDEX_ENTRY_BYTES
  {
    IndexShare(c, t);
    Product(|t.index|, t.config.maximumBytes, INDEX_ENTRY_BYTES);
  }

  lemma {:induction false} ManifestAccepted(c: Codec, l: Layout, t: State, H: seq<Record>, reason: StopReason)
    requires SealedState(c, l, t, H, reason) && reason != Error
    ensures SR.ValidSealedManifest(c, l, OnDisk(c, l, t).manifest)
  {
    AnchorWithin(c, l, t, H, reason);
    AllOrNothing(c, l, t, H, reason);
    IndexedSegments(c, l, t, H, reason);
    CountFiles(c, l, t, H, reason);
    IndexFits(c, t);
    GapsBounded(t.gaps, |t.sources|, |t.segments|);
    CutWithinProjection(c, t);
    ManifestClauses(c, l, t, H, reason);
  }

  lemma {:induction false} ManifestClauses(c: Codec, l: Layout, t: State, H: seq<Record>, reason: StopReason)
    requires SealedState(c, l, t, H, reason) && reason != Error
    requires var m := t.manifest;
             && 0 < m.startedReceiveNs <= m.replayAnchorReceiveNs <= m.finalizedReceiveNs
             && (if H != [] then 0 < m.firstReceiveNs <= m.lastReceiveNs
                 else m.firstReceiveNs == 0 && m.lastReceiveNs == 0)
             && (m.recordCount != 0) == (|t.files| != 0) == (|t.index| != 0) && (H != [] <==> m.recordCount != 0)
             && |t.files| <= |t.index| <= t.config.maximumBytes / INDEX_ENTRY_BYTES && m.segmentCount == |t.files|
             && |t.gaps| <= |t.sources| * STORED_CHANNELS && t.cutReservedBytes <= t.projectedBytes
    ensures SR.ValidSealedManifest(c, l, OnDisk(c, l, t).manifest)
  {
    var m := t.manifest.(manifestCrc := SR.ManifestCrc(c, l, t.manifest));
    assert m.(manifestCrc := 0) == t.manifest.(manifestCrc := 0);
  }

  // --- Tables -------------------------------------------------------------------------------------

  lemma {:induction false} SealedBlocksNonEmpty(c: Codec, t: State)
    requires StoreOk(c, t)
    ensures forall i :: 0 <= i < |t.blocks| ==> t.blocks[i].header.recordCount >= 1
  {
    BlocksNonEmpty(c, t);
  }

  lemma {:induction false} TablesAccepted(c: Codec, l: Layout, t: State, H: seq<Record>, reason: StopReason)
    requires SealedState(c, l, t, H, reason) && reason != Error
    ensures SR.CatalogHolds(c, l, OnDisk(c, l, t)) && SR.TablesRead(c, l, OnDisk(c, l, t))
    ensures forall i :: 0 <= i < |t.gaps| ==> SR.GapHolds(t.gaps[i], OnDisk(c, l, t))
  {
    ManifestAccepted(c, l, t, H, reason);
    SealedBlocksNonEmpty(c, t);
    ProjectionCoversDisk(c, t);
    forall i | 0 <= i < |t.sources|
      ensures ValidSource(t.sources[i], i)
    {
      assert SourceValidAt(t, i);
    }
  }

  // --- The physical scan ------------------------------------------------------------------------------

  ghost predicate ScannedTo(c: Codec, t: State, scan: SR.Scan, metadata: nat, k: nat)
    requires |t.blocks| == |t.log|
  {
    && scan.Scan? && |scan.streams| == |t.segments| && scan.physical == metadata + BytesUpTo(t.blocks, k)
    && scan.records == RowsUpTo(c, t.blocks, t.log, k)
    && forall n :: 0 <= n < |t.segments| ==> scan.streams[n] == Joined(c, t.blocks, t.log, t.files, n, k)
  }

  /** The segments up to k of a shard hold the first of these rows. */
  ghost predicate JoinsInto(
      c: Codec, bs: seq<BlockRange>, log: seq<seq<u8>>, files: map<nat, SegmentHeader>, shard: nat, k: nat,
      rows: seq<Record>) {
    |bs| == |log| && Joined(c, bs, log, files, shard, k) <= rows
  }

  lemma {:induction false} JoinedWithin(
      c: Codec, bs: seq<BlockRange>, log: seq<seq<u8>>, files: map<nat, SegmentHeader>, shard: nat, k: nat, n: nat,
      rows: seq<Record>)
    requires |bs| == |log| && k <= n && JoinsTo(c, bs, log, files, shard, n, rows)
    ensures JoinsInto(c, bs, log, files, shard, k, rows)
  {
    JoinedPrefix(c, bs, log, files, shard, k, n);
  }

  lemma {:induction false} JoinedInStream(
      c: Codec, l: Layout, t: State, H: seq<Record>, reason: StopReason, shard: nat, k: nat)
    requires SealedState(c, l, t, H, reason) && shard < |t.segments| && k < t.nextSegmentNumber
    ensures JoinsInto(c, t.blocks, t.log, t.files, shard, k, OfShard(H, shard)) && DT.Sorted(OfShard(H, shard))
  {
    StreamJoins(c, l, t, H, reason, shard);
    JoinedWithin(c, t.blocks, t.log, t.files, shard, k, t.nextSegmentNumber - 1, OfShard(H, shard));
    StreamSorted(c, l, t, H, reason, shard);
  }

  lemma {:induction false} StreamSorted(c: Codec, l: Layout, t: State, H: seq<Record>, reason: StopReason, shard: nat)
    requires SealedState(c, l, t, H, reason) && shard < |t.segments|
    ensures DT.Sorted(OfShard(H, shard))
  {
    ClosedStream(c, l, t, H, reason, shard);
  }

  lemma {:induction false} SegmentFollows(c: Codec, l: Layout, t: State, H: seq<Record>, reason: StopReason, k: nat)
    requires SealedState(c, l, t, H, reason) && 1 <= k && k in t.files
    ensures SR.FollowsShard(Joined(c, t.blocks, t.log, t.files, t.files[k].shardIndex, k - 1),
            SegmentRows(c, t.blocks, t.log, k))
  {
    EveryFile(c, l, t, H, reason, k);
    var shard := t.files[k].shardIndex;
    JoinedInStream(c, l, t, H, reason, shard, k);
    InStreamOrder(OfShard(H, shard), Joined(c, t.blocks, t.log, t.files, shard, k),
        Joined(c, t.blocks, t.log, t.files, shard, k - 1),
                  SegmentRows(c, t.blocks, t.log, k));
  }

  lemma {:induction false} InStreamOrder(all: seq<Record>, joined: seq<Record>, before: seq<Record>, rows: seq<Record>)
    requires DT.Sorted(all) && joined <= all && joined == before + rows
    ensures SR.FollowsShard(before, rows)
  {
    if before != [] && rows != [] {
      assert all[|before| - 1] == (before + rows)[|before| - 1] && all[|before|] == (before + rows)[|before|];
    }
  }

  lemma {:induction false} SegmentChecked(c: Codec, l: Layout, t: State, H: seq<Record>, reason: StopReason, k: nat)
    requires Lawful(c) && SealedState(c, l, t, H, reason) && 1 <= k && k in t.files
    ensures SR.ShardOf(t.index, k) == Some(t.files[k].shardIndex)
    ensures SR.CheckSegment(c, OnDisk(c, l, t), k, Joined(c, t.blocks, t.log, t.files, t.files[k].shardIndex, k - 1))
            == Some(SegmentRows(c, t.blocks, t.log, k))
  {
    var shard := t.files[k].shardIndex;
    SegmentEntries(c, l, t, H, reason, k);
    forall i | 0 <= i < |t.index| && t.index[i].segmentNumber == k
      ensures t.index[i].shardIndex == shard
    {
      var j := EntryFromRow(c, l, t, H, reason, i);
    }
    ShardFound(t.index, k, shard);
    FileOpens(c, l, t, H, reason, k);
    SegmentFollows(c, l, t, H, reason, k);
    TableMatches(t.index, k, shard, SegmentRows(c, t.blocks, t.log, k));
  }

  lemma {:induction false} PhysicalWithin(c: Codec, l: Layout, t: State, H: seq<Record>, reason: StopReason, k: nat)
    requires SealedState(c, l, t, H, reason) && k < t.nextSegmentNumber
    ensures SR.MetadataBytes(OnDisk(c, l, t)) + BytesUpTo(t.blocks, k) <= t.projectedBytes
  {
    SealedBlocks(c, l, t, H, reason);
    BytesMonotone(t.blocks, k, t.nextSegmentNumber - 1);
    BytesPartition(t.blocks, t.nextSegmentNumber - 1);
    SealedBlocksNonEmpty(c, t);
    ProjectionCoversDisk(c, t);
  }

  /** The reader's scan of the first k segments went well. */
  ghost predicate ScanReaches(c: Codec, l: Layout, t: State, k: nat) {
    && |t.blocks| == |t.log|
    && ScannedTo(c, t, SR.ScanSegments(c, OnDisk(c, l, t), k), SR.MetadataBytes(OnDisk(c, l, t)), k)
  }

  /** What the reader needs to find of segment k behind those before it. */
  ghost predicate ScanReady(c: Codec, l: Layout, t: State, k: nat) {
    && |t.blocks| == |t.log| && 1 <= k && k in t.files && t.files[k].shardIndex < |t.segments|
    && t.files[k].storedBytes == StoredOf(t.blocks, k) && SR.ShardOf(t.index, k) == Some(t.files[k].shardIndex)
    && SR.CheckSegment(c, OnDisk(c, l, t), k, Joined(c, t.blocks, t.log, t.files, t.files[k].shardIndex, k - 1))
       == Some(SegmentRows(c, t.blocks, t.log, k))
    && SR.MetadataBytes(OnDisk(c, l, t)) + BytesUpTo(t.blocks, k) <= t.manifest.projectedBytes
  }

  lemma {:induction false} SegmentReady(c: Codec, l: Layout, t: State, H: seq<Record>, reason: StopReason, k: nat)
    requires Lawful(c) && SealedState(c, l, t, H, reason) && 1 <= k < t.nextSegmentNumber
    ensures ScanReady(c, l, t, k)
  {
    EveryFile(c, l, t, H, reason, k);
    SegmentChecked(c, l, t, H, reason, k);
    PhysicalWithin(c, l, t, H, reason, k);
  }

  lemma {:induction false} ScanAll(c: Codec, l: Layout, t: State, k: nat)
    requires |t.blocks| == |t.log| && t.manifest.shardCount == |t.segments|
    requires forall j {:trigger ScanReady(c, l, t, j)} :: 1 <= j <= k ==> ScanReady(c, l, t, j)
    ensures ScanReaches(c, l, t, k)
    decreases k
  {
    if k > 0 {
      ScanAll(c, l, t, k - 1);
      ScanStep(c, l, t, k);
    } else {
      ScanBegins(c, l, t);
    }
  }

  /** The scan accepts every segment in turn. */
  lemma {:induction false} ScanAccepts(c: Codec, l: Layout, t: State, H: seq<Record>, reason: StopReason, k: nat)
    requires Lawful(c) && SealedState(c, l, t, H, reason) && k < t.nextSegmentNumber
    ensures ScanReaches(c, l, t, k)
  {
    forall j | 1 <= j <= k
      ensures ScanReady(c, l, t, j)
    {
      SegmentReady(c, l, t, H, reason, j);
    }
    ScanAll(c, l, t, k);
  }

  lemma {:induction false} ScanBegins(c: Codec, l: Layout, t: State)
    requires |t.blocks| == |t.log| && t.manifest.shardCount == |t.segments|
    ensures ScanReaches(c, l, t, 0)
  {
  }

  lemma {:induction false} ScanStep(c: Codec, l: Layout, t: State, k: nat)
    requires ScanReady(c, l, t, k) && ScanReaches(c, l, t, k - 1)
    ensures ScanReaches(c, l, t, k)
  {
    var before := SR.ScanSegments(c, OnDisk(c, l, t), k - 1);
    var scan := SR.ScanSegments(c, OnDisk(c, l, t), k);
    var shard := t.files[k].shardIndex;
    assert before.streams[shard] == Joined(c, t.blocks, t.log, t.files, shard, k - 1);
    forall n | 0 <= n < |t.segments|
      ensures scan.streams[n] == Joined(c, t.blocks, t.log, t.files, n, k)
    {
      if n != shard {
        assert Joined(c, t.blocks, t.log, t.files, n, k - 1) + [] == Joined(c, t.blocks, t.log, t.files, n, k - 1);
      }
    }
  }

  /** The shard streams of a history. */
  ghost predicate StreamsOf(streams: seq<seq<Record>>, H: seq<Record>) {
    forall n :: 0 <= n < |streams| ==> streams[n] == OfShard(H, n)
  }

  /** The reader's index recomputation, record totals and physical-byte quota all pass, and the rows
      it reads are the rows the writer accepted, shard by shard. */
  lemma {:induction false} ScanPasses(c: Codec, l: Layout, t: State, H: seq<Record>, reason: StopReason)
    requires Lawful(c) && SealedState(c, l, t, H, reason)
    ensures var a := OnDisk(c, l, t);
            var scan := SR.ScanSegments(c, a, a.manifest.segmentCount);
            && scan.Scan? && scan.physical <= a.manifest.projectedBytes && scan.records == a.manifest.recordCount
            && |scan.streams| == |t.segments| && StreamsOf(scan.streams, H)
  {
    var n := t.nextSegmentNumber - 1;
    CountFiles(c, l, t, H, reason);
    ScanAccepts(c, l, t, H, reason, n);
    PhysicalWithin(c, l, t, H, reason, n);
    IndexTotals(c, l, t, H, reason);
    var scan := SR.ScanSegments(c, OnDisk(c, l, t), n);
    forall i | 0 <= i < |scan.streams|
      ensures scan.streams[i] == OfShard(H, i)
    {
      StreamJoins(c, l, t, H, reason, i);
    }
  }

  // --- Over runs ----------------------------------------------------------------------------------

  /** Step i of the run is the successful finalization that ended it. */
  ghost predicate EndsSealed(c: Codec, l: Layout, ms: seq<Moment>, steps: seq<Step>, i: nat) {
    && i < |steps| < |ms| && steps[i].Seal? && Ready(ms[i].state)
    && Finalize(c, l, ms[i].state, steps[i].reason, steps[i].finalizedReceiveNs, steps[i].committedNow).Done?
    && Finalize(c, l, ms[i].state, steps[i].reason, steps[i].finalizedReceiveNs, steps[i].committedNow).status == Ok
  }

  lemma {:induction false} StepSeals(c: Codec, l: Layout, m: Moment, step: Step, m': Moment)
    requires Lawful(c) && MomentOk(c, m) && StepTo(c, l, m, step, m') && step.Seal?
    requires Finalize(c, l, m.state, step.reason, step.finalizedReceiveNs, step.committedNow).status == Ok
    ensures SealedState(c, l, m'.state, m'.accepted, step.reason)
  {
    SealApplied(c, l, m, step, m');
    FinalizeSeals(c, l, m.state, m.accepted, step.reason, step.finalizedReceiveNs, step.committedNow);
  }

  lemma {:induction false} SealApplied(c: Codec, l: Layout, m: Moment, step: Step, m': Moment)
    requires StepTo(c, l, m, step, m') && step.Seal?
    ensures m'.accepted == m.accepted
    ensures m'.state == Finalize(c, l, m.state, step.reason, step.finalizedReceiveNs, step.committedNow).state
  {
  }

  lemma {:induction false} RunSealed(c: Codec, l: Layout, g: Config, ms: seq<Moment>, steps: seq<Step>, i: nat)
    requires Lawful(c) && IsRun(c, l, g, ms, steps) && EndsSealed(c, l, ms, steps, i)
    ensures SealedState(c, l, ms[i + 1].state, ms[i + 1].accepted, steps[i].reason)
  {
    RunInv(c, l, g, ms, steps, i);
    assert StepAt(c, l, ms, steps, i);
    StepSeals(c, l, ms[i], steps[i], ms[i + 1]);
  }

  /** Sealed corpus acceptance, for every run ended by a finalization with a reason other than Error:
      the manifest is valid, the catalog and all three tables hold, every gap holds, and the full
      scan decodes each segment to the rows accepted, finds the index it recomputes from them, and
      meets the totals and the physical quota.  The index also meets the reader's catalog check if
      and only if no accepted row is older than its source was catalogued. */
  lemma {:induction false} SealedCorpusAccepted(
      c: Codec, l: Layout, g: Config, ms: seq<Moment>, steps: seq<Step>, i: nat)
    requires Lawful(c) && IsRun(c, l, g, ms, steps) && EndsSealed(c, l, ms, steps, i) && steps[i].reason != Error
    ensures var t, H := ms[i + 1].state, ms[i + 1].accepted;
            && |t.blocks| == |t.log|
            && var a := OnDisk(c, l, t);
               var scan := SR.ScanSegments(c, a, a.manifest.segmentCount);
               && SR.ValidSealedManifest(c, l, a.manifest) && SR.CatalogHolds(c, l, a) && SR.TablesRead(c, l, a)
               && (forall j :: 0 <= j < |a.gaps| ==> SR.GapHolds(a.gaps[j], a))
               && scan.Scan? && scan.physical <= a.manifest.projectedBytes && scan.records == a.manifest.recordCount
               && |scan.streams| == g.shardCount && StreamsOf(scan.streams, H)
               && (SR.IndexHolds(a) <==> GenerationsCovered(t, H))
  {
    var t, H, reason := ms[i + 1].state, ms[i + 1].accepted, steps[i].reason;
    RunSealed(c, l, g, ms, steps, i);
    ManifestAccepted(c, l, t, H, reason);
    TablesAccepted(c, l, t, H, reason);
    ScanPasses(c, l, t, H, reason);
    IndexAccepted(c, l, t, H, reason);
    RunShards(c, l, g, ms, steps, i + 1);
  }

  /** The manifest file is written from exactly the manifest the last cut carries: finding it on disk
      witnesses that the finalized cut was committed. */
  lemma {:induction false} ManifestMatchesCut(c: Codec, l: Layout, g: Config, ms: seq<Moment>, steps: seq<Step>, i: nat)
    requires Lawful(c) && IsRun(c, l, g, ms, steps) && EndsSealed(c, l, ms, steps, i)
    ensures var t := ms[i + 1].state;
            t.latest.Some? && t.latest.value.finalized && t.latest.value.manifest == t.manifest
            && t.latest.value in ms[i + 1].cuts
  {
    RunSealed(c, l, g, ms, steps, i);
    SealCounts(c, l, g, ms, steps, i);
    CutNumbers(c, l, g, ms, steps, i);
    CutNumbers(c, l, g, ms, steps, i + 1);
    RunTakes(c, l, g, ms, steps, i);
  }

  lemma {:induction false} SealCounts(c: Codec, l: Layout, g: Config, ms: seq<Moment>, steps: seq<Step>, i: nat)
    requires Lawful(c) && IsRun(c, l, g, ms, steps) && EndsSealed(c, l, ms, steps, i)
    ensures ms[i + 1].state.cutGeneration == ms[i].state.cutGeneration + 1
  {
    RunInv(c, l, g, ms, steps, i);
    assert StepAt(c, l, ms, steps, i);
    SealApplied(c, l, ms[i], steps[i], ms[i + 1]);
    FinalizeNumbers(c, l, ms[i].state, ms[i].accepted, steps[i].reason, steps[i].finalizedReceiveNs,
        steps[i].committedNow);
  }

  lemma {:induction false} RunShards(c: Codec, l: Layout, g: Config, ms: seq<Moment>, steps: seq<Step>, n: nat)
    requires Lawful(c) && IsRun(c, l, g, ms, steps) && n <= |steps|
    ensures |ms[n].state.segments| == g.shardCount && ms[n].state.config == g
  {
    RunConfig(c, l, g, ms, steps, n);
    RunInv(c, l, g, ms, steps, n);
  }

  lemma {:induction false} RunConfig(c: Codec, l: Layout, g: Config, ms: seq<Moment>, steps: seq<Step>, n: nat)
    requires Lawful(c) && IsRun(c, l, g, ms, steps) && n <= |steps|
    ensures ms[n].state.config == g
  {
    StartConfig(c, l, g, ms, steps);
    LaterConfig(c, l, g, ms, steps, n);
  }

  lemma {:induction false} StartConfig(c: Codec, l: Layout, g: Config, ms: seq<Moment>, steps: seq<Step>)
    requires IsRun(c, l, g, ms, steps)
    ensures ms[0].state.config == g
  {
    assert Begins(c, g, ms[0]);
  }

  lemma {:induction false} LaterConfig(c: Codec, l: Layout, g: Config, ms: seq<Moment>, steps: seq<Step>, n: nat)
    requires Lawful(c) && IsRun(c, l, g, ms, steps) && n <= |steps|
    ensures ms[n].state.config == ms[0].state.config
  {
    RunLater(c, l, g, ms, steps, 0, n);
  }
}
