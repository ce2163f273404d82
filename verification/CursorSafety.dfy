/** What a live cursor keeps whatever it is given: any offers, and any bytes from cache, feed and files
    (src/Runtime/src/Corpus/CorpusCut.cpp, refresh and next). */
module CursorSafety {
  import opened Records
  import opened Storage
  import opened Formats
  import opened Merge
  import opened Continuity
  import opened ActiveCursor
  import DT = DepthTransaction

  // --- Free runs --------------------------------------------------------------------------------------

  datatype Act = Offered(offer: Offer) | Asked(world: World)

  /** A cursor and all it has returned. */
  datatype Track = Track(cursor: Cursor, emitted: seq<Record>)

  function Step(c: Codec, t: Track, act: Act): Track {
    match act
    case Offered(offer) => t.(cursor := Refresh(c, t.cursor, offer).1)
    case Asked(world) =>
      var p := Next(c, world, t.cursor);
      Track(p.cursor, t.emitted + if p.emission.Emitted? then [p.emission.record] else [])
  }

  function After(c: Codec, begin: u64, budget: nat, acts: seq<Act>): Track {
    if acts == [] then Track(Opened(begin, budget), [])
    else Step(c, After(c, begin, budget, acts[..|acts| - 1]), acts[|acts| - 1])
  }

  // --- Rows -------------------------------------------------------------------------------------------

  ghost predicate RowSound(r: Record, shard: nat) { ValidRecord(r) && r.tailZero && r.shardIndex == shard }

  ghost predicate RowsSound(rows: seq<Record>, shard: nat) {
    forall i :: 0 <= i < |rows| ==> RowSound(rows[i], shard)
  }

  /** No row is beyond this sequence and time. */
  ghost predicate UpTo(rows: seq<Record>, sequence: int, time: int) {
    forall i :: 0 <= i < |rows| ==> rows[i].shardSequence <= sequence && rows[i].receiveMonotonicNs <= time
  }

  ghost predicate SinceBegin(rows: seq<Record>, begin: int) {
    forall i :: 0 <= i < |rows| ==> begin <= rows[i].receiveMonotonicNs
  }

  /** Shard n's head, once it has given out these rows: they and the rows it holds are in order. */
  ghost predicate HeadSound(h: Head, out: seq<Record>, n: nat, begin: int) {
    && h.position <= |h.decoded| && RowsSound(out, n) && RowsSound(h.decoded, n)
    && DT.Sorted(out + h.decoded[h.position..]) && SinceBegin(out + h.decoded[h.position..], begin)
    && UpTo(out, h.previousSequence, h.previousTime) && UpTo(h.decoded, h.previousSequence, h.previousTime)
    && DT.Replay(out) == Some(h.transaction)
  }

  lemma {:induction false} ContinueSorted(
      rows: seq<Record>, shard: nat, sources: nat, channel: Channel, sequence: nat, time: nat)
    requires RowsContinue(rows, shard, sources, channel, sequence, time)
    ensures RowsSound(rows, shard) && DT.Sorted(rows)
    ensures forall i :: 0 <= i < |rows| ==>
              (sequence != 0 ==> rows[i].shardSequence > sequence) && (time != 0 ==> rows[i].receiveMonotonicNs >= time)
    decreases |rows|
  {
    if rows != [] {
      ContinueSorted(rows[1..], shard, sources, channel, rows[0].shardSequence, rows[0].receiveMonotonicNs);
      assert forall i :: 0 < i < |rows| ==> rows[i] == rows[1..][i - 1];
    }
  }

  lemma {:induction false} SkipSince(rows: seq<Record>, begin: nat, n: nat)
    requires n <= |rows| && DT.Sorted(rows)
    ensures SinceBegin(rows[Skip(rows, begin, n)..], begin)
    decreases |rows| - n
  {
    if n < |rows| && rows[n].receiveMonotonicNs < begin {
      SkipSince(rows, begin, n + 1);
    } else if n < |rows| {
      assert forall i :: n < i < |rows| ==> rows[n].receiveMonotonicNs <= rows[i].receiveMonotonicNs;
    }
  }

  /** Rows that go on behind the last row seen go on behind what was given out. */
  lemma {:induction false} JoinSorted(out: seq<Record>, rows: seq<Record>, k: nat, sequence: nat, time: nat)
    requires k <= |rows| && DT.Sorted(out) && DT.Sorted(rows) && UpTo(out, sequence, time)
    requires out != [] ==>
               forall i :: 0 <= i < |rows| ==> rows[i].shardSequence > sequence && rows[i].receiveMonotonicNs >= time
    ensures DT.Sorted(out + rows[k..])
  {
    var all := out + rows[k..];
    forall i, j | 0 <= i < j < |all|
      ensures all[i].shardSequence < all[j].shardSequence && all[i].receiveMonotonicNs <= all[j].receiveMonotonicNs
    {
      if i < |out| <= j { assert all[j] == rows[k + j - |out|]; }
      if |out| <= i { assert all[i] == rows[k + i - |out|] && all[j] == rows[k + j - |out|]; }
    }
  }

  lemma {:induction false} SortedPrefix(a: seq<Record>, b: seq<Record>)
    requires DT.Sorted(a + b)
    ensures DT.Sorted(a)
  {
    assert forall i :: 0 <= i < |a| ==> (a + b)[i] == a[i];
  }

  lemma {:induction false} LastOfSorted(rows: seq<Record>)
    requires rows != [] && DT.Sorted(rows)
    ensures UpTo(rows, rows[|rows| - 1].shardSequence, rows[|rows| - 1].receiveMonotonicNs)
  {
  }

  /** A block that passes the checks of the decoder leaves the head sound, whatever its bytes. */
  lemma {:induction false} AdvancedSound(
      c: Codec, b: BlockRange, bytes: seq<u8>, n: nat, sources: nat, h: Head, out: seq<Record>, k: nat, begin: nat)
    requires HeadSound(h, out, n, begin) && h.position == |h.decoded|
    requires DecodeRows(c, b, bytes, n, sources, h).Some?
    ensures HeadSound(Advanced(h, k, DecodeRows(c, b, bytes, n, sources, h).value, begin), out, n, begin)
  {
    var rows := DecodeRows(c, b, bytes, n, sources, h).value;
    ContinueSorted(rows, n, sources, b.header.channel, h.previousSequence, h.previousTime);
    SortedPrefix(out, h.decoded[h.position..]);
    if out != [] { assert RowSound(out[0], n); }
    SkipSince(rows, begin, 0);
    JoinSorted(out, rows, Skip(rows, begin, 0), h.previousSequence, h.previousTime);
    LastOfSorted(rows);
    OutUpTo(out, h.previousSequence, h.previousTime, rows[|rows| - 1]);
    assert forall i :: 0 <= i < |out| ==> out[i] == (out + h.decoded[h.position..])[i];
  }

  lemma {:induction false} OutUpTo(out: seq<Record>, sequence: nat, time: nat, last: Record)
    requires UpTo(out, sequence, time)
    requires out != [] ==> sequence < last.shardSequence && time <= last.receiveMonotonicNs
    ensures UpTo(out, last.shardSequence, last.receiveMonotonicNs)
  {
  }

  lemma {:induction false} FillSound(
      c: Codec, w: World, cut: Cut, begin: nat, n: nat, h: Head, detached: bool, archive: bool, out: seq<Record>)
    requires HeadSound(h, out, n, begin) && Fill(c, w, cut, begin, n, h, detached, archive).Filled?
    ensures HeadSound(Fill(c, w, cut, begin, n, h, detached, archive).head, out, n, begin)
    decreases if h.block <= |cut.blocks| then |cut.blocks| - h.block else 0
  {
    if !h.ready && h.position == |h.decoded| && h.block <= |cut.blocks| {
      var k := NextBlock(cut.blocks, h.block, n);
      if k < |cut.blocks| {
        var b := cut.blocks[k];
        var loaded := LoadEncoded(c, w, b, k, detached);
        AdvancedSound(c, b, loaded.bytes, n, |cut.sources|, h, out, k, begin);
        var rows := DecodeRows(c, b, loaded.bytes, n, |cut.sources|, h).value;
        FillSound(c, w, cut, begin, n, Advanced(h, k, rows, begin), loaded.detached, archive || loaded.archive, out);
      }
    }
  }

  // --- The cursor ---------------------------------------------------------------------------------------

  ghost predicate ShardSound(heads: seq<Head>, emitted: seq<Record>, begin: int, n: int) {
    0 <= n < |heads| && HeadSound(heads[n], OfShard(emitted, n), n, begin)
  }

  ghost predicate HeadsSound(heads: seq<Head>, emitted: seq<Record>, begin: int) {
    && (forall n :: 0 <= n < |heads| ==> ShardSound(heads, emitted, begin, n))
    && forall i :: 0 <= i < |emitted| ==> emitted[i].shardIndex < |heads|
  }

  lemma {:induction false} HeadFilled(heads: seq<Head>, emitted: seq<Record>, begin: int, i: nat, h: Head)
    requires HeadsSound(heads, emitted, begin) && i < |heads| && HeadSound(h, OfShard(emitted, i), i, begin)
    ensures HeadsSound(heads[i := h], emitted, begin)
  {
    var after := heads[i := h];
    forall n | 0 <= n < |after|
      ensures ShardSound(after, emitted, begin, n)
    {
      assert ShardSound(heads, emitted, begin, n);
    }
  }

  ghost predicate AllSound(f: FilledAll, emitted: seq<Record>, begin: int) {
    f.FilledAll? ==> HeadsSound(f.heads, emitted, begin)
  }

  lemma {:induction false} FillAllSound(
      c: Codec, w: World, cut: Cut, begin: nat, heads: seq<Head>, k: nat, detached: bool, archive: bool,
      emitted: seq<Record>)
    requires k <= |heads| && HeadsSound(heads, emitted, begin)
    ensures AllSound(FillAll(c, w, cut, begin, heads, k, detached, archive), emitted, begin)
    decreases k
  {
    if k > 0 {
      FillAllSound(c, w, cut, begin, heads, k - 1, detached, archive, emitted);
      match FillAll(c, w, cut, begin, heads, k - 1, detached, archive)
      case AllFailed(_) =>
      case FilledAll(hs, d, a) =>
        assert ShardSound(hs, emitted, begin, k - 1);
        var f := Fill(c, w, cut, begin, k - 1, hs[k - 1], d, a);
        if f.Filled? {
          FillSound(c, w, cut, begin, k - 1, hs[k - 1], d, a, OfShard(emitted, k - 1));
          HeadFilled(hs, emitted, begin, k - 1, f.head);
        }
    }
  }

  lemma {:induction false} TakenSound(h: Head, out: seq<Record>, n: nat, begin: int, t: DT.Transaction)
    requires HeadSound(h, out, n, begin) && h.position < |h.decoded|
    requires DT.Advance(h.decoded[h.position], h.transaction) == Some(t)
    ensures var r := h.decoded[h.position];
            HeadSound(h.(transaction := t, position := h.position + 1, ready := h.position + 1 < |h.decoded|),
                      out + [r], n, begin)
  {
    var r := h.decoded[h.position];
    assert RowSound(r, n);
    DT.ReplayAppend(out, r);
    assert h.decoded[h.position..] == [r] + h.decoded[h.position + 1..];
    assert out + h.decoded[h.position..] == out + [r] + h.decoded[h.position + 1..];
  }

  /** Only the head that gave out the row has moved. */
  lemma {:induction false} EmitSound(heads: seq<Head>, emitted: seq<Record>, begin: int, b: nat, t: DT.Transaction)
    requires HeadsSound(heads, emitted, begin) && b < |heads| && heads[b].position < |heads[b].decoded|
    requires DT.Advance(heads[b].decoded[heads[b].position], heads[b].transaction) == Some(t)
    ensures var h := heads[b];
            var taken := h.(transaction := t, position := h.position + 1, ready := h.position + 1 < |h.decoded|);
            HeadsSound(heads[b := taken], emitted + [h.decoded[h.position]], begin)
    ensures heads[b].decoded[heads[b].position].shardIndex == b
  {
    var h := heads[b];
    var r := h.decoded[h.position];
    assert ShardSound(heads, emitted, begin, b) && RowSound(r, b);
    TakenSound(h, OfShard(emitted, b), b, begin, t);
    var after := heads[b := h.(transaction := t, position := h.position + 1, ready := h.position + 1 < |h.decoded|)];
    forall n | 0 <= n < |after|
      ensures ShardSound(after, emitted + [r], begin, n)
    {
      assert ShardSound(heads, emitted, begin, n);
      OfShardAppend(emitted, r, n);
      assert n != b ==> OfShard(emitted, n) + [] == OfShard(emitted, n);
    }
  }

  /** The cut's progress has passed the row. */
  ghost predicate Passed(cut: Cut, r: Record) {
    && r.receiveMonotonicNs < cut.progress.safeMonotonicNs
    && (r.shardIndex < MAXIMUM_SHARDS ==> r.shardSequence <= cut.progress.shardSequences[r.shardIndex])
  }

  ghost function Returned(p: Stepped): seq<Record> { if p.emission.Emitted? then [p.emission.record] else [] }

  /** An emission moves one head by one row. */
  lemma {:induction false} PickTakes(cur: Cursor, cut: Cut)
    requires Pick(cur, cut).emission.Emitted?
    ensures var p, b := Pick(cur, cut), BestHead(cur.heads, |cur.heads|);
            && b < |cur.heads| && cur.heads[b].position < |cur.heads[b].decoded|
            && p.emission.record == cur.heads[b].decoded[cur.heads[b].position]
            && BehindWatermark(cut, p.emission.record, b)
            && var h, t := cur.heads[b], DT.Advance(p.emission.record, cur.heads[b].transaction);
               && t.Some?
               && p.cursor.heads == cur.heads[b := h.(transaction := t.value, position := h.position + 1,
                                                      ready := h.position + 1 < |h.decoded|)]
  {
  }

  lemma {:induction false} PickSound(cur: Cursor, cut: Cut, emitted: seq<Record>)
    requires HeadsSound(cur.heads, emitted, cur.begin)
    ensures HeadsSound(Pick(cur, cut).cursor.heads, emitted + Returned(Pick(cur, cut)), cur.begin)
    ensures Pick(cur, cut).emission.Emitted? ==> Passed(cut, Pick(cur, cut).emission.record)
  {
    var p := Pick(cur, cut);
    if p.emission.Emitted? {
      PickTakes(cur, cut);
      var b := BestHead(cur.heads, |cur.heads|);
      EmitSound(cur.heads, emitted, cur.begin, b, DT.Advance(p.emission.record, cur.heads[b].transaction).value);
    } else {
      assert p.cursor.heads == cur.heads && emitted + [] == emitted;
    }
  }

  /** The whole cursor behind a free run. */
  ghost predicate Sound(t: Track) {
    && HeadsSound(t.cursor.heads, t.emitted, t.cursor.begin)
    && (t.cursor.cut.None? ==> t.cursor.heads == []) && (t.cursor.heads == [] ==> t.emitted == [])
  }

  lemma {:induction false} NextSound(c: Codec, w: World, cur: Cursor, emitted: seq<Record>)
    requires HeadsSound(cur.heads, emitted, cur.begin)
    ensures var p := Next(c, w, cur);
            && HeadsSound(p.cursor.heads, emitted + Returned(p), cur.begin)
            && (p.emission.Emitted? ==> !cur.failed && cur.cut.Some? && Passed(cur.cut.value, p.emission.record))
  {
    assert emitted + [] == emitted;
    if !cur.failed && cur.cut.Some? {
      var cut := cur.cut.value;
      FillAllSound(c, w, cut, cur.begin, cur.heads, |cur.heads|, cur.feedDetached, cur.archive, emitted);
      match FillAll(c, w, cut, cur.begin, cur.heads, |cur.heads|, cur.feedDetached, cur.archive)
      case AllFailed(_) =>
      case FilledAll(heads, detached, archive) =>
        var filled := cur.(heads := heads, feedDetached := detached, archive := archive);
        PickSound(filled, cut, emitted);
    }
  }

  lemma {:induction false} AskedSound(c: Codec, w: World, t: Track)
    requires Sound(t)
    ensures Sound(Step(c, t, Asked(w))) && Step(c, t, Asked(w)).cursor.begin == t.cursor.begin
  {
    NextSound(c, w, t.cursor, t.emitted);
    NextReads(c, w, t.cursor);
  }

  lemma {:induction false} FreshSound(n: nat, begin: int)
    ensures HeadSound(FRESH_HEAD, [], n, begin)
  {
    assert [] + FRESH_HEAD.decoded[0..] == [];
  }

  lemma {:induction false} RefreshSound(c: Codec, t: Track, offer: Offer)
    requires Sound(t)
    ensures Sound(Step(c, t, Offered(offer)))
  {
    var after := Step(c, t, Offered(offer)).cursor;
    if t.cursor.heads == [] {
      forall n | 0 <= n < |after.heads|
        ensures ShardSound(after.heads, [], after.begin, n)
      {
        FreshSound(n, after.begin);
      }
    }
  }

  lemma {:induction false} FreeRunsSound(c: Codec, begin: u64, budget: nat, acts: seq<Act>)
    ensures Sound(After(c, begin, budget, acts)) && After(c, begin, budget, acts).cursor.begin == begin
  {
    if acts != [] {
      var front, act := acts[..|acts| - 1], acts[|acts| - 1];
      FreeRunsSound(c, begin, budget, front);
      match act
      case Offered(offer) => RefreshSound(c, After(c, begin, budget, front), offer);
      case Asked(world) => AskedSound(c, world, After(c, begin, budget, front));
    }
  }

  /** Whatever cuts a cursor is offered and whatever bytes it is given, the rows it has returned of any
      shard are valid, of that shard, not before the requested time, in strict order, and within the
      transaction rules. */
  lemma {:induction false} EmittedSound(c: Codec, begin: u64, budget: nat, acts: seq<Act>, n: nat)
    ensures var rows := OfShard(After(c, begin, budget, acts).emitted, n);
            RowsSound(rows, n) && SinceBegin(rows, begin) && DT.Sorted(rows) && DT.Replay(rows).Some?
  {
    FreeRunsSound(c, begin, budget, acts);
    var t := After(c, begin, budget, acts);
    if n < |t.cursor.heads| {
      assert ShardSound(t.cursor.heads, t.emitted, begin, n);
      var h, rows := t.cursor.heads[n], OfShard(t.emitted, n);
      SortedPrefix(rows, h.decoded[h.position..]);
      assert forall i :: 0 <= i < |rows| ==> rows[i] == (rows + h.decoded[h.position..])[i];
    } else {
      OfShardNone(t.emitted, n);
    }
  }

  lemma {:induction false} OfShardNone(rs: seq<Record>, n: nat)
    requires forall i :: 0 <= i < |rs| ==> rs[i].shardIndex != n
    ensures OfShard(rs, n) == []
  {
    if rs != [] { OfShardNone(rs[1..], n); }
  }

  // --- Adopted cuts ---------------------------------------------------------------------------------------

  /** The later cut keeps what the earlier one said: no generation, progress or block is taken back. */
  ghost predicate Kept(cut: Cut, next: Cut) { Follows(cut, next) && KeepsBlocks(cut, next) }

  lemma {:induction false} KeptTransitive(a: Cut, b: Cut, d: Cut)
    requires Kept(a, b) && Kept(b, d)
    ensures Kept(a, d)
  {
    forall n | 0 <= n < |a.blocks|
      ensures SameRange(a.blocks[n], d.blocks[n])
    {
      assert SameRange(a.blocks[n], b.blocks[n]) && SameRange(b.blocks[n], d.blocks[n]);
    }
  }

  lemma {:induction false} KeptReflexive(cut: Cut)
    ensures Kept(cut, cut)
  {
    forall n | 0 <= n < |cut.blocks|
      ensures SameRange(cut.blocks[n], cut.blocks[n])
    {
    }
  }

  lemma {:induction false} RefreshKeeps(c: Codec, cur: Cursor, offer: Offer)
    requires cur.cut.Some?
    ensures Refresh(c, cur, offer).1.cut.Some? && Kept(cur.cut.value, Refresh(c, cur, offer).1.cut.value)
  {
    KeptReflexive(cur.cut.value);
  }

  lemma {:induction false} StepKeepsCut(c: Codec, t: Track, act: Act)
    requires t.cursor.cut.Some?
    ensures Step(c, t, act).cursor.cut.Some? && Kept(t.cursor.cut.value, Step(c, t, act).cursor.cut.value)
  {
    match act
    case Offered(offer) => RefreshKeeps(c, t.cursor, offer);
    case Asked(world) =>
      NextReads(c, world, t.cursor);
      KeptReflexive(t.cursor.cut.value);
  }

  /** Whatever a cursor is offered, each cut it adopts keeps the generation, the progress and every block
      of the cuts it held before. */
  lemma {:induction false} AdoptedChain(c: Codec, begin: u64, budget: nat, acts: seq<Act>, i: nat)
    requires i <= |acts| && After(c, begin, budget, acts[..i]).cursor.cut.Some?
    ensures var held, now := After(c, begin, budget, acts[..i]).cursor.cut, After(c, begin, budget, acts).cursor.cut;
            now.Some? && Kept(held.value, now.value)
    decreases |acts|
  {
    if i == |acts| {
      assert acts[..i] == acts;
    } else {
      var front := acts[..|acts| - 1];
      assert front[..i] == acts[..i];
      AdoptedChain(c, begin, budget, front, i);
      var t := After(c, begin, budget, front);
      StepKeepsCut(c, t, acts[|acts| - 1]);
      KeptTransitive(After(c, begin, budget, acts[..i]).cursor.cut.value, t.cursor.cut.value,
                     After(c, begin, budget, acts).cursor.cut.value);
    }
  }
}
