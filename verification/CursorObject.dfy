/** The live cursor as an object (src/Runtime/src/Corpus/CorpusCut.cpp, CorpusActiveCursor), proved
    against the functions of module ActiveCursor. */
module CursorObject {
  import opened Records
  import opened Storage
  import opened Formats
  import opened Merge
  import opened Continuity
  import AC = ActiveCursor
  import DT = DepthTransaction
  import W = Writer

  class CorpusActiveCursor {
    const codec: Codec
    const begin: u64
    const maximumResidentBytes: nat
    var cut: Option<Cut>
    var heads: seq<AC.Head>
    var archive: bool
    var failed: bool
    var feedDetached: bool
    var caughtUp: bool

    ghost function Value(): AC.Cursor
      reads this
    {
      AC.Cursor(begin, maximumResidentBytes, cut, heads, archive, failed, feedDetached, caughtUp)
    }

    constructor (codec: Codec, begin: u64, maximumResidentBytes: nat)
      ensures Value() == AC.Opened(begin, maximumResidentBytes) && this.codec == codec
    {
      this.codec, this.begin, this.maximumResidentBytes := codec, begin, maximumResidentBytes;
      cut, heads, archive, failed, feedDetached, caughtUp := None, [], false, false, false, false;
    }

    // --- Adopting a cut ---------------------------------------------------------------------------

    /** Compare the immutable block prefix. */
    static method SameBlocks(a: Cut, b: Cut) returns (same: bool)
      requires |a.blocks| <= |b.blocks|
      ensures same == KeepsBlocks(a, b)
    {
      var n := 0;
      while n < |a.blocks|
        invariant 0 <= n <= |a.blocks| && forall m :: 0 <= m < n ==> SameRange(a.blocks[m], b.blocks[m])
      {
        if !SameRange(a.blocks[n], b.blocks[n]) { return false; }
        n := n + 1;
      }
      return true;
    }

    method Refresh(offer: AC.Offer) returns (status: Status)
      modifies this
      ensures (status, Value()) == AC.Refresh(codec, old(Value()), offer)
    {
      if failed { return InvalidArgument; }
      if !AC.WithinBudget(codec, offer.cut, maximumResidentBytes) { return OutOfRange; }
      if !offer.acknowledged && !offer.archived {
        match offer.approval
        case NoAuthority => return InvalidArgument;
        case Unreachable(refusal) => return refusal;
        case Approved(generation) =>
          if offer.cut.generation > generation { return if cut.Some? then Ok else Unknown; }
      }
      if offer.archived { feedDetached, archive := true, true; }
      if cut.Some? {
        var held := cut.value;
        var ok := Follows(held, offer.cut) &&
            (W.AnchorExecutable(held) ==> SameAnchor(held.manifest, offer.cut.manifest));
        if ok { ok := SameBlocks(held, offer.cut); }
        if !ok {
          failed := true;
          return CorruptData;
        }
      }
      Adopt(offer);
      return Ok;
    }

    method Adopt(offer: AC.Offer)
      modifies this
      ensures Value() == AC.Adopt(old(Value()), offer)
    {
      if heads == [] { heads := seq(offer.cut.progress.shardCount, _ => AC.FRESH_HEAD); }
      if !offer.archived && caughtUp && cut.Some? && offer.cut.generation > cut.value.generation {
        feedDetached, caughtUp := false, false;
      }
      cut := Some(offer.cut);
    }

    // --- Reading ----------------------------------------------------------------------------------

    /** Check the rows of a decoded block against the shard so far. */
    static method RowsContinue(
        rows: seq<Record>, shard: nat, sources: nat, channel: Channel, sequence: nat, time: nat) returns (ok: bool)
      ensures ok == AC.RowsContinue(rows, shard, sources, channel, sequence, time)
    {
      var previousSequence: nat, previousTime: nat := sequence, time;
      var n := 0;
      while n < |rows|
        invariant 0 <= n <= |rows|
        invariant AC.RowsContinue(rows[n..], shard, sources, channel, previousSequence, previousTime)
                  == AC.RowsContinue(rows, shard, sources, channel, sequence, time)
      {
        assert rows[n..][0] == rows[n] && rows[n..][1..] == rows[n + 1..];
        if !AC.RowContinues(rows[n], shard, sources, channel, previousSequence, previousTime) { return false; }
        previousSequence, previousTime := rows[n].shardSequence, rows[n].receiveMonotonicNs;
        n := n + 1;
      }
      return true;
    }

    static method DecodeRows(codec: Codec, b: BlockRange, bytes: seq<u8>, shard: nat, sources: nat, head: AC.Head)
      returns (rows: Option<seq<Record>>)
      ensures rows == AC.DecodeRows(codec, b, bytes, shard, sources, head)
    {
      if codec.crc(bytes) != b.header.encodedCrc { return None; }
      rows := codec.decode(b.header.channel, b.header.recordCount, bytes);
      if rows.None? || |rows.value| != b.header.recordCount || codec.crcRows(0, rows.value) != b.header.rawCrc {
        return None;
      }
      var ok := RowsContinue(rows.value, shard, sources, b.header.channel, head.previousSequence, head.previousTime);
      if !ok || rows.value == [] || !AC.RangeMatches(b, rows.value) { return None; }
    }

    /** Bring shard s to its next row; on failure the status is the reason. */
    method FillShard(w: AC.World, current: Cut, s: nat) returns (status: Status, ok: bool)
      requires s < |heads|
      modifies this`heads, this`feedDetached, this`archive
      ensures match AC.Fill(codec, w, current, begin, s, old(heads)[s], old(feedDetached), old(archive))
              case FillFailed(reason) => !ok && status == reason
              case Filled(head, detached, fromArchive) =>
                ok && heads == old(heads)[s := head] && feedDetached == detached && archive == fromArchive
    {
      ghost var start := AC.Fill(codec, w, current, begin, s, heads[s], feedDetached, archive);
      ghost var before := heads;
      var head := heads[s];
      while !head.ready && head.position >= |head.decoded| && head.block <= |current.blocks|
        invariant AC.Fill(codec, w, current, begin, s, head, feedDetached, archive) == start && heads == before
        decreases if head.block <= |current.blocks| then |current.blocks| - head.block + 1 else 0
      {
        var k := head.block;
        while k < |current.blocks| && current.blocks[k].shardIndex != s
          invariant head.block <= k <= |current.blocks|
          invariant AC.NextBlock(current.blocks, k, s) == AC.NextBlock(current.blocks, head.block, s)
        {
          k := k + 1;
        }
        if k == |current.blocks| {
          heads := heads[s := head.(block := k)];
          return Ok, true;
        }
        var b := current.blocks[k];
        if !AC.BlockReadable(codec, b) { return CorruptData, false; }
        var loaded := AC.LoadEncoded(codec, w, b, k, feedDetached);
        if loaded.Lost? { return loaded.status, false; }
        var rows := DecodeRows(codec, b, loaded.bytes, s, |current.sources|, head);
        if rows.None? { return CorruptData, false; }
        feedDetached := loaded.detached;
        archive := archive || loaded.archive;
        head := AC.Advanced(head, k, rows.value, begin);
      }
      if !head.ready && head.position < |head.decoded| { head := head.(ready := true); }
      heads := heads[s := head];
      return Ok, true;
    }

    /** One more shard of the pass that started from `hs`. */
    method FillNext(
        w: AC.World, current: Cut, s: nat, ghost hs: seq<AC.Head>, ghost d: bool,
        ghost a: bool) returns (status: Status, ok: bool)
      requires s < |heads| == |hs|
      requires AC.FillAll(codec, w, current, begin, hs, s, d, a) == AC.FilledAll(heads, feedDetached, archive)
      modifies this`heads, this`feedDetached, this`archive
      ensures ok ==> |heads| == |hs|
      ensures ok ==> AC.FillAll(codec, w, current, begin, hs, s + 1, d, a) == AC.FilledAll(heads, feedDetached, archive)
      ensures !ok ==> AC.FillAll(codec, w, current, begin, hs, s + 1, d, a) == AC.AllFailed(status)
    {
      FillOne(codec, w, current, begin, hs, s, d, a, heads, feedDetached, archive);
      status, ok := FillShard(w, current, s);
    }

    method FillShards(w: AC.World, current: Cut) returns (status: Status, ok: bool)
      modifies this`heads, this`feedDetached, this`archive
      ensures match AC.FillAll(codec, w, current, begin, old(heads), |old(heads)|, old(feedDetached), old(archive))
              case AllFailed(reason) => !ok && status == reason
              case FilledAll(hs, detached, fromArchive) =>
                ok && heads == hs && feedDetached == detached && archive == fromArchive
    {
      ghost var hs, d, a := heads, feedDetached, archive;
      var count := |heads|;
      var s := 0;
      while s < count
        invariant 0 <= s <= count == |heads| == |hs|
        invariant AC.FillAll(codec, w, current, begin, hs, s, d, a) == AC.FilledAll(heads, feedDetached, archive)
      {
        status, ok := FillNext(w, current, s, hs, d, a);
        if !ok {
          FillFails(codec, w, current, begin, hs, s + 1, count, d, a);
          return;
        }
        s := s + 1;
      }
      return Ok, true;
    }

    /** The shard whose ready row comes first. */
    method BestHead() returns (best: nat)
      ensures best == AC.BestHead(heads, |heads|)
    {
      best := |heads|;
      var n := 0;
      while n < |heads|
        invariant 0 <= n <= |heads| && best == AC.BestHead(heads, n)
      {
        var h := heads[n];
        if AC.HasRow(h) &&
            (best == |heads| || Before(h.decoded[h.position], heads[best].decoded[heads[best].position])) {
          best := n;
        }
        n := n + 1;
      }
    }

    method Next(w: AC.World) returns (status: Status, emission: AC.Emission)
      modifies this
      ensures var p := AC.Next(codec, w, old(Value()));
              && status == p.status && emission == p.emission
              && (if emission.Failure? then failed else Value() == p.cursor)
    {
      emission := AC.WouldBlock;
      if failed || cut.None? { return InvalidArgument, emission; }
      var current := cut.value;
      var ok;
      status, ok := FillShards(w, current);
      if !ok {
        failed := true;
        return status, AC.Failure;
      }
      status, emission := Pick(current);
    }

    method Pick(current: Cut) returns (status: Status, emission: AC.Emission)
      modifies this
      ensures var p := AC.Pick(old(Value()), current);
              && status == p.status && emission == p.emission
              && (if emission.Failure? then failed else Value() == p.cursor)
    {
      var best := BestHead();
      if best == |heads| {
        if current.finalized {
          var n := 0;
          while n < |heads|
            invariant 0 <= n <= |heads| && forall m :: 0 <= m < n ==> !heads[m].transaction.Open?
          {
            if heads[n].transaction.Open? {
              failed := true;
              return CorruptData, AC.Failure;
            }
            n := n + 1;
          }
        }
        caughtUp := true;
        return Ok, if current.finalized then AC.End else AC.WouldBlock;
      }
      var h := heads[best];
      var r := h.decoded[h.position];
      if !AC.BehindWatermark(current, r, best) {
        caughtUp := true;
        return Ok, AC.WouldBlock;
      }
      var t := DT.Advance(r, h.transaction);
      if t.None? {
        failed := true;
        return CorruptData, AC.Failure;
      }
      heads :=
          heads[best := h.(transaction := t.value, position := h.position + 1, ready := h.position + 1 < |h.decoded|)];
      return Ok, AC.Emitted(r);
    }
  }

  lemma {:induction false} FillOne(
      c: Codec, w: AC.World, cut: Cut, begin: nat, heads: seq<AC.Head>, k: nat, d: bool, a: bool, at: seq<AC.Head>,
      detached: bool, archive: bool)
    requires k < |heads| == |at| && AC.FillAll(c, w, cut, begin, heads, k, d, a) == AC.FilledAll(at, detached, archive)
    ensures AC.FillAll(c, w, cut, begin, heads, k + 1, d, a) ==
            (match AC.Fill(c, w, cut, begin, k, at[k], detached, archive)
             case FillFailed(status) => AC.AllFailed(status)
             case Filled(h, d', a') => AC.FilledAll(at[k := h], d', a'))
  {
  }

  lemma {:induction false} FillFails(
      c: Codec, w: AC.World, cut: Cut, begin: nat, heads: seq<AC.Head>, n: nat, k: nat, d: bool, a: bool)
    requires n <= k <= |heads| && AC.FillAll(c, w, cut, begin, heads, n, d, a).AllFailed?
    ensures AC.FillAll(c, w, cut, begin, heads, k, d, a) == AC.FillAll(c, w, cut, begin, heads, n, d, a)
    decreases k
  {
    if n < k { FillFails(c, w, cut, begin, heads, n, k - 1, d, a); }
  }
}
