/** A writer and a live cursor side by side, in any interleaving, and which cut a refresh can adopt at
    all (src/Runtime/src/Corpus/CorpusCut.cpp, refresh). */
module LiveRuns {
  import opened Records
  import opened Storage
  import opened Formats
  import opened Publication
  import opened Merge
  import opened Writer
  import opened WriterRuns
  import opened Continuity
  import CutFile
  import opened ActiveCursor
  import opened LiveReading
  import DT = DepthTransaction
  import D = Durability

  // --- What the cursor can reach ----------------------------------------------------------------------

  /** A segment file holds its header, then the blocks of the cut appended to it; what the writer has
      put there since may still be in its buffers. */
  ghost predicate FileHolds(c: Codec, bs: seq<BlockRange>, log: seq<seq<u8>>, files: map<nat, seq<u8>>, i: int)
    requires |bs| == |log| && 0 <= i < |bs|
  {
    HoldsBody(files, bs[i].segmentNumber, FileBody(c, bs, log, bs[i].segmentNumber))
  }

  ghost predicate HoldsBody(files: map<nat, seq<u8>>, k: nat, body: seq<u8>) {
    && k in files && SEGMENT_HEADER_BYTES + |body| <= |files[k]|
    && files[k][SEGMENT_HEADER_BYTES..SEGMENT_HEADER_BYTES + |body|] == body
  }

  /** The world of a cursor that reads `cut` while the writer is in state s: the writer's own cache, the
      files as that cut left them, and a feed that serves the cut's blocks or lags. */
  ghost predicate Surrounds(c: Codec, w: World, s: State, cut: Cut) {
    && |s.blocks| == |s.log| && |cut.blocks| <= |s.log|
    && (w.cache.Some? ==> w.cache.value == s.cache)
    && (w.feed.Some? ==> forall i {:trigger FeedTrue(c, w.feed.value, i, cut.blocks[i], s.log[i])} ::
          0 <= i < |cut.blocks| ==> FeedTrue(c, w.feed.value, i, cut.blocks[i], s.log[i]))
    && (forall i {:trigger FileHolds(c, cut.blocks, s.log[..|cut.blocks|], w.files, i)} ::
          0 <= i < |cut.blocks| ==> FileHolds(c, cut.blocks, s.log[..|cut.blocks|], w.files, i))
  }

  lemma {:induction false} ArchivedBlock(
      c: Codec, bs: seq<BlockRange>, log: seq<seq<u8>>, files: map<nat, seq<u8>>, i: nat)
    requires FixedHeaders(c) && LogOk(c, bs, log) && i < |bs| && FileHolds(c, bs, log, files, i)
    ensures Archived(c, files, bs[i], log[i])
  {
    ArchiveRead(c, bs, log, i);
    assert BlockOk(c, bs[i], log[i]) && HeaderSurvives(c, bs[i].header);
    HeldBlock(c, files, FileBody(c, bs, log, bs[i].segmentNumber), bs[i], log[i]);
  }

  /** A block that stands in the body of its file stands in the file. */
  lemma {:induction false} HeldBlock(c: Codec, files: map<nat, seq<u8>>, body: seq<u8>, b: BlockRange, bytes: seq<u8>)
    requires HoldsBody(files, b.segmentNumber, body) && |c.headerBytes(b.header)| == BLOCK_HEADER_BYTES
    requires b.offset >= SEGMENT_HEADER_BYTES
    requires StandsAt(body, b.offset - SEGMENT_HEADER_BYTES, c.headerBytes(b.header), bytes)
    ensures Archived(c, files, b, bytes)
  {
    FoundAt(files[b.segmentNumber], body, b.offset, c.headerBytes(b.header), bytes);
  }

  lemma {:induction false} FoundAt(file: seq<u8>, body: seq<u8>, offset: nat, header: seq<u8>, payload: seq<u8>)
    requires SEGMENT_HEADER_BYTES + |body| <= |file|
    requires file[SEGMENT_HEADER_BYTES..SEGMENT_HEADER_BYTES + |body|] == body
    requires offset >= SEGMENT_HEADER_BYTES && StandsAt(body, offset - SEGMENT_HEADER_BYTES, header, payload)
    ensures offset + |header| + |payload| <= |file|
    ensures file[offset..offset + |header|] == header
    ensures file[offset + |header|..offset + |header| + |payload|] == payload
  {
    var at := offset - SEGMENT_HEADER_BYTES;
    SliceOfSlice(file, SEGMENT_HEADER_BYTES, |body|, at, at + |header|);
    SliceOfSlice(file, SEGMENT_HEADER_BYTES, |body|, at + |header|, at + |header| + |payload|);
  }

  lemma {:induction false} SliceOfSlice(file: seq<u8>, base: nat, length: nat, i: nat, j: nat)
    requires base + length <= |file| && i <= j <= length
    ensures file[base..base + length][i..j] == file[base + i..base + j]
  {
    var a, b := file[base..base + length][i..j], file[base + i..base + j];
    assert |a| == |b| && forall k :: 0 <= k < |a| ==> a[k] == b[k];
  }

  /** Everything such a world answers is true. */
  lemma {:induction false} SurroundsWell(c: Codec, w: World, s: State, cut: Cut, log: seq<seq<u8>>)
    requires FixedHeaders(c) && LogOk(c, s.blocks, s.log) && Faithful(s.blocks, s.log, s.cache)
    requires Surrounds(c, w, s, cut) && cut.blocks <= s.blocks && log <= s.log && |log| == |cut.blocks|
    ensures WorldOk(c, w, cut.blocks, log)
  {
    assert s.blocks[..|log|] == cut.blocks && s.log[..|log|] == log;
    LogPrefix(c, s.blocks, s.log, |log|);
    forall i | 0 <= i < |cut.blocks|
      ensures Reachable(c, w, cut.blocks, log, i)
    {
      assert cut.blocks[i] == s.blocks[i] && log[i] == s.log[i];
      assert FileHolds(c, cut.blocks, s.log[..|cut.blocks|], w.files, i);
      ArchivedBlock(c, cut.blocks, log, w.files, i);
      if w.cache.Some? && Load(w.cache.value, cut.blocks[i]).Some? { LoadIsFaithful(c, s.blocks, s.log, s.cache, i); }
      if w.feed.Some? { assert FeedTrue(c, w.feed.value, i, cut.blocks[i], s.log[i]); }
    }
  }

  // --- Interleavings ----------------------------------------------------------------------------------

  /** `writer` counts the writer's steps so far; `emitted` is everything the cursor has returned. */
  datatype Watch = Watch(cursor: Cursor, writer: nat, emitted: seq<Record>)

  datatype Event = Written(writer: nat) | Look(offer: Offer, k: nat) | Pull(world: World)

  /** One event: the writer moves on, the cursor is offered one of the cuts published so far that is
      no older than the one it holds, or it is asked for a row. */
  ghost predicate WatchTo(c: Codec, ms: seq<Moment>, w: Watch, e: Event, w': Watch) {
    && w.writer < |ms|
    && match e
       case Written(n) => w' == w.(writer := n) && w.writer <= n < |ms|
       case Look(offer, k) =>
         && k < |ms[w.writer].cuts| && offer.cut == ms[w.writer].cuts[k]
         && (w.cursor.cut.Some? ==> w.cursor.cut.value.generation <= k + 1)
         && w' == w.(cursor := Refresh(c, w.cursor, offer).1)
       case Pull(world) =>
         && (w.cursor.cut.Some? ==> Surrounds(c, world, ms[w.writer].state, w.cursor.cut.value))
         && var p := Next(c, world, w.cursor);
            w' == w.(cursor := p.cursor,
                emitted := w.emitted + (if p.emission.Emitted? then [p.emission.record] else []))
  }

  /** The cursor follows the cut taken at moment a. */
  ghost predicate FollowsAt(c: Codec, ms: seq<Moment>, w: Watch, a: nat, x: Reading) {
    && a <= w.writer < |ms| && w.cursor.cut.Some? && Following(c, w.cursor, ms[a], x) && x.emitted == w.emitted
    && |ms[a].cuts| == w.cursor.cut.value.generation > 0 && ms[a].cuts[|ms[a].cuts| - 1] == w.cursor.cut.value
  }

  ghost predicate Waiting(w: Watch) {
    w.cursor.cut.None? && !w.cursor.failed && w.cursor.heads == [] && w.emitted == []
  }

  ghost predicate WatchOk(c: Codec, ms: seq<Moment>, w: Watch) {
    Waiting(w) || exists a, x :: FollowsAt(c, ms, w, a, x)
  }

  /** Where cut k of the run was taken. */
  lemma {:induction false} CutPlace(
      c: Codec, l: Layout, g: Config, ms: seq<Moment>, steps: seq<Step>, n: nat, k: nat) returns (i: nat)
    requires Lawful(c) && IsRun(c, l, g, ms, steps) && n <= |steps| && k < |ms[n].cuts|
    ensures 0 < i <= n && |ms[i].cuts| == k + 1 && ms[i].cuts[k] == ms[n].cuts[k] && ms[i].cuts <= ms[n].cuts
    ensures Taken(ms[n].cuts[k], ms[i].state) && MomentOk(c, ms[i]) && ms[n].cuts[k].generation == k + 1
  {
    i := CutTaken(c, l, g, ms, steps, n, k);
    RunInv(c, l, g, ms, steps, i);
    CutNumbers(c, l, g, ms, steps, i);
  }

  // --- Every event keeps the cursor on track ------------------------------------------------------

  /** A later offer was taken no earlier than the cut in hand, or is that cut. */
  lemma {:induction false} OfferPlace(
      c: Codec, l: Layout, g: Config, ms: seq<Moment>, steps: seq<Step>, w: Watch, a: nat, x: Reading,
      k: nat) returns (b: nat)
    requires Lawful(c) && IsRun(c, l, g, ms, steps) && FollowsAt(c, ms, w, a, x)
    requires k < |ms[w.writer].cuts| && w.cursor.cut.value.generation <= k + 1
    ensures a <= b <= w.writer && Taken(ms[w.writer].cuts[k], ms[b].state)
    ensures |ms[b].cuts| == k + 1 == ms[w.writer].cuts[k].generation && ms[b].cuts[k] == ms[w.writer].cuts[k]
  {
    b := CutPlace(c, l, g, ms, steps, w.writer, k);
    if b < a {
      FewerCuts(c, l, g, ms, steps, b, a);
      CutsStay(c, l, g, ms, steps, a, w.writer);
      b := a;
    }
  }

  lemma {:induction false} CutsStay(c: Codec, l: Layout, g: Config, ms: seq<Moment>, steps: seq<Step>, a: nat, n: nat)
    requires Lawful(c) && IsRun(c, l, g, ms, steps) && a <= n <= |steps|
    ensures ms[a].cuts <= ms[n].cuts
  {
    RunLater(c, l, g, ms, steps, a, n);
  }

  /** A refresh of a cursor that already follows the run. */
  lemma {:induction false} RefreshFollows(
      c: Codec, cur: Cursor, m: Moment, x: Reading, offer: Offer, m': Moment) returns (y: Reading)
    requires MomentOk(c, m) && MomentOk(c, m') && Later(m, m') && Following(c, cur, m, x) && Taken(offer.cut, m'.state)
    requires From(m'.accepted[|m.accepted|..], m.state.progress.safeMonotonicNs)
    ensures var cur' := Refresh(c, cur, offer).1;
            && !cur'.failed && y.emitted == x.emitted
            && ((cur' == cur && y == x) || (cur'.cut == Some(offer.cut) && Following(c, cur', m', y)))
  {
    var cur' := Refresh(c, cur, offer).1;
    MomentsContinue(c, cur.cut.value, m, offer.cut, m');
    NotEmpty(c, cur, m, x);
    if cur' == cur { y := x; } else { y := FollowOn(c, cur, m, x, offer.cut, m', cur'); }
  }

  lemma {:induction false} NotEmpty(c: Codec, cur: Cursor, m: Moment, x: Reading)
    requires MomentOk(c, m) && Following(c, cur, m, x)
    ensures cur.heads != []
  {
  }

  lemma {:induction false} LookLands(
      c: Codec, ms: seq<Moment>, w: Watch, cut: Cut, k: nat, b: nat, cur: Cursor, y: Reading)
    requires b <= w.writer < |ms| && cur.cut == Some(cut) && Following(c, cur, ms[b], y) && y.emitted == w.emitted
    requires |ms[b].cuts| == k + 1 == cut.generation && ms[b].cuts[k] == cut
    ensures WatchOk(c, ms, w.(cursor := cur))
  {
    assert FollowsAt(c, ms, w.(cursor := cur), b, y);
  }

  lemma {:induction false} LookFollows(
      c: Codec, l: Layout, g: Config, ms: seq<Moment>, steps: seq<Step>, w: Watch, a: nat, x: Reading, offer: Offer,
      k: nat, w': Watch)
    requires Lawful(c) && IsRun(c, l, g, ms, steps) && Disciplined(ms, steps)
    requires FollowsAt(c, ms, w, a, x) && WatchTo(c, ms, w, Look(offer, k), w')
    ensures WatchOk(c, ms, w')
  {
    var b := OfferPlace(c, l, g, ms, steps, w, a, x, k);
    RunInv(c, l, g, ms, steps, a);
    RunInv(c, l, g, ms, steps, b);
    RunLater(c, l, g, ms, steps, a, b);
    AcceptedAbove(c, l, g, ms, steps, a, b);
    var y := RefreshFollows(c, w.cursor, ms[a], x, offer, ms[b]);
    if w'.cursor == w.cursor { assert w' == w; } else { LookLands(c, ms, w, offer.cut, k, b, w'.cursor, y); }
  }

  /** A first refresh leaves the cursor alone or starts it on the offered cut. */
  lemma {:induction false} RefreshStarts(c: Codec, cur: Cursor, offer: Offer)
    requires cur.heads == [] && cur.cut.None? && !cur.failed
    ensures var cur' := Refresh(c, cur, offer).1;
            || cur' == cur
            || (&& cur'.cut == Some(offer.cut) && |cur'.heads| == offer.cut.progress.shardCount && !cur'.failed
                && forall n :: 0 <= n < |cur'.heads| ==> cur'.heads[n] == FRESH_HEAD)
  {
  }

  lemma {:induction false} LookStarts(
      c: Codec, l: Layout, g: Config, ms: seq<Moment>, steps: seq<Step>, w: Watch, offer: Offer, k: nat, w': Watch)
    requires Lawful(c) && IsRun(c, l, g, ms, steps) && Waiting(w) && WatchTo(c, ms, w, Look(offer, k), w')
    ensures WatchOk(c, ms, w')
  {
    RefreshStarts(c, w.cursor, offer);
    if w'.cursor != w.cursor {
      var b := CutPlace(c, l, g, ms, steps, w.writer, k);
      LandsFirst(c, ms, w, offer.cut, k, b, w'.cursor);
    }
  }

  lemma {:induction false} LandsFirst(c: Codec, ms: seq<Moment>, w: Watch, cut: Cut, k: nat, b: nat, cur: Cursor)
    requires b <= w.writer < |ms| && MomentOk(c, ms[b]) && Taken(cut, ms[b].state)
    requires |ms[b].cuts| == k + 1 == cut.generation && ms[b].cuts[k] == cut && w.emitted == []
    requires cur.cut == Some(cut) && !cur.failed && |cur.heads| == cut.progress.shardCount
    requires forall n :: 0 <= n < |cur.heads| ==> cur.heads[n] == FRESH_HEAD
    ensures WatchOk(c, ms, w.(cursor := cur))
  {
    TakenCorpus(c, cut, ms[b]);
    FirstAdoption(c, cut, ms[b], cur);
    LookLands(c, ms, w, cut, k, b, cur, Untouched(View(ms[b].accepted, cur.begin, |ms[b].state.segments|)));
  }

  /** Reading one row: status Ok, and the emission is the least row left behind the watermark. */
  lemma {:induction false} PullFollows(
      c: Codec, l: Layout, g: Config, ms: seq<Moment>, steps: seq<Step>, w: Watch, a: nat, x: Reading, world: World)
    returns (y: Reading)
    requires Lawful(c) && DepthWidest(c) && IsRun(c, l, g, ms, steps) && FollowsAt(c, ms, w, a, x)
    requires Surrounds(c, world, ms[w.writer].state, w.cursor.cut.value)
    ensures var p := Next(c, world, w.cursor);
            && p.status == Ok && Moved(w.cursor.cut.value, x, p.emission, y)
            && p.cursor.cut == w.cursor.cut && CursorOk(c, p.cursor, w.cursor.cut.value, ms[a].state.log, y)
  {
    RunInv(c, l, g, ms, steps, a);
    RunInv(c, l, g, ms, steps, w.writer);
    RunLater(c, l, g, ms, steps, a, w.writer);
    var cut := w.cursor.cut.value;
    TakenReadable(c, cut, ms[a]);
    WorldSound(c, world, ms[w.writer], cut, ms[a]);
    y := NextOk(c, world, w.cursor, cut, ms[a].state.log, x);
  }

  lemma {:induction false} WorldSound(c: Codec, world: World, now: Moment, cut: Cut, m: Moment)
    requires Lawful(c) && MomentOk(c, now) && MomentOk(c, m) && Later(m, now) && Taken(cut, m.state)
    requires Surrounds(c, world, now.state, cut)
    ensures |cut.blocks| == |m.state.log| && WorldOk(c, world, cut.blocks, m.state.log)
  {
    SurroundsWell(c, world, now.state, cut, m.state.log);
  }

  lemma {:induction false} PullKeeps(
      c: Codec, l: Layout, g: Config, ms: seq<Moment>, steps: seq<Step>, w: Watch, a: nat, x: Reading, world: World,
      w': Watch)
    requires Lawful(c) && DepthWidest(c) && IsRun(c, l, g, ms, steps)
    requires FollowsAt(c, ms, w, a, x) && WatchTo(c, ms, w, Pull(world), w')
    ensures WatchOk(c, ms, w')
  {
    var y := PullFollows(c, l, g, ms, steps, w, a, x, world);
    PullView(c, ms[a], w, x, world, w', y);
    assert FollowsAt(c, ms, w', a, y);
  }

  lemma {:induction false} PullView(c: Codec, m: Moment, w: Watch, x: Reading, world: World, w': Watch, y: Reading)
    requires w.cursor.cut.Some? && Following(c, w.cursor, m, x) && x.emitted == w.emitted
    requires var p := Next(c, world, w.cursor);
             && Moved(w.cursor.cut.value, x, p.emission, y) && p.cursor.cut == w.cursor.cut
             && CursorOk(c, p.cursor, w.cursor.cut.value, m.state.log, y)
             && w' == w.(cursor := p.cursor,
                 emitted := w.emitted + (if p.emission.Emitted? then [p.emission.record] else []))
    ensures Following(c, w'.cursor, m, y) && y.emitted == w'.emitted
  {
    NextReads(c, world, w.cursor);
  }

  lemma {:induction false} WatchStepOk(
      c: Codec, l: Layout, g: Config, ms: seq<Moment>, steps: seq<Step>, w: Watch, e: Event, w': Watch)
    requires Lawful(c) && DepthWidest(c) && IsRun(c, l, g, ms, steps) && Disciplined(ms, steps)
    requires WatchOk(c, ms, w) && WatchTo(c, ms, w, e, w')
    ensures WatchOk(c, ms, w')
  {
    if Waiting(w) {
      if e.Look? { LookStarts(c, l, g, ms, steps, w, e.offer, e.k, w'); }
    } else {
      var a, x :| FollowsAt(c, ms, w, a, x);
      match e
      case Written(n) => assert FollowsAt(c, ms, w', a, x);
      case Look(offer, k) => LookFollows(c, l, g, ms, steps, w, a, x, offer, k, w');
      case Pull(world) => PullKeeps(c, l, g, ms, steps, w, a, x, world, w');
    }
  }

  ghost predicate WatchAt(c: Codec, ms: seq<Moment>, ws: seq<Watch>, es: seq<Event>, i: int) {
    0 <= i < |es| && i + 1 < |ws| && WatchTo(c, ms, ws[i], es[i], ws[i + 1])
  }

  /** An interleaving from a newly opened cursor on. */
  ghost predicate IsWatch(c: Codec, ms: seq<Moment>, begin: u64, budget: nat, ws: seq<Watch>, es: seq<Event>) {
    && |ws| == |es| + 1 && ws[0].cursor == Opened(begin, budget) && ws[0].emitted == []
    && forall i {:trigger WatchAt(c, ms, ws, es, i)} :: 0 <= i < |es| ==> WatchAt(c, ms, ws, es, i)
  }

  lemma {:induction false} WatchesOk(
      c: Codec, l: Layout, g: Config, ms: seq<Moment>, steps: seq<Step>, begin: u64, budget: nat, ws: seq<Watch>,
      es: seq<Event>, t: nat)
    requires Lawful(c) && DepthWidest(c) && IsRun(c, l, g, ms, steps) && Disciplined(ms, steps)
    requires IsWatch(c, ms, begin, budget, ws, es) && t <= |es|
    ensures WatchOk(c, ms, ws[t]) && ws[t].cursor.begin == begin && ws[t].cursor.maximumResidentBytes == budget
    decreases t
  {
    if t > 0 {
      WatchesOk(c, l, g, ms, steps, begin, budget, ws, es, t - 1);
      assert WatchAt(c, ms, ws, es, t - 1);
      WatchStepOk(c, l, g, ms, steps, ws[t - 1], es[t - 1], ws[t]);
      StepBegin(c, ms, ws[t - 1], es[t - 1], ws[t]);
    }
  }

  lemma {:induction false} StepBegin(c: Codec, ms: seq<Moment>, w: Watch, e: Event, w': Watch)
    requires WatchTo(c, ms, w, e, w')
    ensures w'.cursor.begin == w.cursor.begin
    ensures w'.cursor.maximumResidentBytes == w.cursor.maximumResidentBytes
  {
    if e.Pull? { NextReads(c, e.world, w.cursor); }
  }

  // --- The theorems -------------------------------------------------------------------------------

  /** The shard streams a cut commits to, decoded from the writer's log. */
  ghost function CutStreams(c: Codec, cut: Cut, log: seq<seq<u8>>, begin: nat, k: nat): (v: seq<seq<Record>>)
    requires |cut.blocks| <= |log|
    ensures |v| == k
    ensures forall n :: 0 <= n < k ==> v[n] == Since(ShardRows(c, cut.blocks, log[..|cut.blocks|], n), begin)
    decreases k
  {
    if k == 0 then []
    else CutStreams(c, cut, log, begin, k - 1) + [Since(ShardRows(c, cut.blocks, log[..|cut.blocks|], k - 1), begin)]
  }

  lemma {:induction false} CutStreamsView(c: Codec, cut: Cut, m: Moment, now: Moment, begin: nat)
    requires MomentOk(c, m) && Later(m, now) && Taken(cut, m.state) && |now.state.blocks| == |now.state.log|
    ensures |cut.blocks| <= |now.state.log| && cut.progress.shardCount == |m.state.segments|
    ensures CutStreams(c, cut, now.state.log, begin, cut.progress.shardCount) == View(m.accepted, begin,
            |m.state.segments|)
  {
    var log := now.state.log[..|cut.blocks|];
    assert log == m.state.log;
    forall n | 0 <= n < |m.state.segments|
      ensures ShardRows(c, cut.blocks, log, n) == OfShard(m.accepted, n)
    {
      MomentStream(c, cut, m, n);
    }
  }

  lemma {:induction false} FollowingPrefix(c: Codec, cur: Cursor, m: Moment, x: Reading, cut: Cut, m': Moment)
    requires MomentOk(c, m) && MomentOk(c, m') && Later(m, m') && Following(c, cur, m, x) && Taken(cut, m'.state)
    requires From(m'.accepted[|m.accepted|..], m.state.progress.safeMonotonicNs)
    ensures x.emitted <= Merged(View(m'.accepted, cur.begin, |m'.state.segments|))
  {
    var y := FollowOn(c, cur, m, x, cut, m', cur.(cut := Some(cut)));
    ConsumedMerges(y.streams, y.emitted, y.rest);
  }

  /** Live prefix safety: at any point of any interleaving the cursor has not failed, and what it has
      emitted is a prefix of the merge of every cut the writer publishes from then on. */
  lemma {:induction false} LivePrefix(
      c: Codec, l: Layout, g: Config, ms: seq<Moment>, steps: seq<Step>, begin: u64, budget: nat, ws: seq<Watch>,
      es: seq<Event>, t: nat, n: nat, k: nat)
    requires Lawful(c) && DepthWidest(c) && IsRun(c, l, g, ms, steps) && Disciplined(ms, steps)
    requires IsWatch(c, ms, begin, budget, ws, es) && t <= |es| && ws[t].writer <= n <= |steps| && k < |ms[n].cuts|
    requires ws[t].cursor.cut.Some? ==> ws[t].cursor.cut.value.generation <= ms[n].cuts[k].generation
    ensures !ws[t].cursor.failed
    ensures |ms[n].cuts[k].blocks| <= |ms[n].state.log|
    ensures ws[t].emitted <= Merged(CutStreams(c, ms[n].cuts[k], ms[n].state.log, begin,
            ms[n].cuts[k].progress.shardCount))
  {
    WatchesOk(c, l, g, ms, steps, begin, budget, ws, es, t);
    var w := ws[t];
    var cut := ms[n].cuts[k];
    var b := CutPlace(c, l, g, ms, steps, n, k);
    RunLater(c, l, g, ms, steps, b, n);
    RunInv(c, l, g, ms, steps, n);
    CutStreamsView(c, cut, ms[b], ms[n], begin);
    if !Waiting(w) {
      var a, x :| FollowsAt(c, ms, w, a, x);
      var d := OfferPlace(c, l, g, ms, steps, w.(writer := n), a, x, k);
      SameView(c, l, g, ms, steps, b, d, n, begin, cut);
      PrefixAt(c, l, g, ms, steps, w, a, x, d, cut);
    }
  }

  /** The same cut taken at two moments shows the same rows. */
  lemma {:induction false} SameView(
      c: Codec, l: Layout, g: Config, ms: seq<Moment>, steps: seq<Step>, b: nat, d: nat, n: nat, begin: nat, cut: Cut)
    requires Lawful(c) && IsRun(c, l, g, ms, steps) && b <= n <= |steps| && d <= n && Taken(cut, ms[b].state)
    requires Taken(cut, ms[d].state)
    ensures View(ms[b].accepted, begin, |ms[b].state.segments|) == View(ms[d].accepted, begin, |ms[d].state.segments|)
  {
    RunInv(c, l, g, ms, steps, b);
    RunInv(c, l, g, ms, steps, d);
    RunInv(c, l, g, ms, steps, n);
    RunLater(c, l, g, ms, steps, b, n);
    RunLater(c, l, g, ms, steps, d, n);
    CutStreamsView(c, cut, ms[b], ms[n], begin);
    CutStreamsView(c, cut, ms[d], ms[n], begin);
  }

  lemma {:induction false} PrefixAt(
      c: Codec, l: Layout, g: Config, ms: seq<Moment>, steps: seq<Step>, w: Watch, a: nat, x: Reading, d: nat, cut: Cut)
    requires Lawful(c) && IsRun(c, l, g, ms, steps) && Disciplined(ms, steps) && FollowsAt(c, ms, w, a, x)
    requires a <= d <= |steps| && Taken(cut, ms[d].state)
    ensures w.emitted <= Merged(View(ms[d].accepted, w.cursor.begin, |ms[d].state.segments|))
  {
    RunInv(c, l, g, ms, steps, a);
    RunInv(c, l, g, ms, steps, d);
    RunLater(c, l, g, ms, steps, a, d);
    AcceptedAbove(c, l, g, ms, steps, a, d);
    FollowingPrefix(c, w.cursor, ms[a], x, cut, ms[d]);
  }

  lemma {:induction false} EmittedOutside(c: Codec, cut: Cut, m: Moment, r: Record)
    requires MomentOk(c, m) && Taken(cut, m.state) && r.shardIndex < |m.state.segments|
    requires BehindWatermark(cut, r, r.shardIndex)
    ensures var tx := DT.Replay(OfShard(m.accepted, r.shardIndex));
            tx.Some? && (tx.value.Open? ==> r.shardSequence < tx.value.firstShardSequence)
  {
    MomentStream(c, cut, m, r.shardIndex);
    assert ProgressAt(m.state, r.shardIndex);
  }

  lemma {:induction false} EmittedShard(x: Reading, r: Record, y: Reading, shards: nat)
    requires ReadingOk(y, shards) && y.emitted == x.emitted + [r]
    ensures r.shardIndex < shards
  {
    var i := |x.emitted|;
    ConsumedMerges(y.streams, y.emitted, y.rest);
    assert Merged(y.streams)[i] == r;
    MergedComesFrom(y.streams, i);
  }

  lemma {:induction false} HasCut(c: Codec, world: World, w: Watch, p: Stepped)
    requires p == Next(c, world, w.cursor) && (p.emission.Emitted? || p.emission.End?)
    ensures w.cursor.cut.Some?
  {
  }

  /** Where the cursor stands when it is asked for a row, and what the call did. */
  lemma {:induction false} PullPlace(
      c: Codec, l: Layout, g: Config, ms: seq<Moment>, steps: seq<Step>, begin: u64, budget: nat, ws: seq<Watch>,
      es: seq<Event>, t: nat, p: Stepped) returns (a: nat, x: Reading, y: Reading)
    requires Lawful(c) && DepthWidest(c) && IsRun(c, l, g, ms, steps) && Disciplined(ms, steps)
    requires IsWatch(c, ms, begin, budget, ws, es) && t < |es| && es[t].Pull?
    requires p == Next(c, es[t].world, ws[t].cursor) && ws[t].cursor.cut.Some?
    ensures a <= ws[t].writer < |ms| && MomentOk(c, ms[a]) && Later(ms[a], ms[ws[t].writer])
    ensures MomentOk(c, ms[ws[t].writer])
    ensures Following(c, ws[t].cursor, ms[a], x) && x.emitted == ws[t].emitted
    ensures ws[t].cursor.begin == begin && p.status == Ok
    ensures Moved(ws[t].cursor.cut.value, x, p.emission, y)
    ensures CursorOk(c, p.cursor, ws[t].cursor.cut.value, ms[a].state.log, y)
  {
    WatchesOk(c, l, g, ms, steps, begin, budget, ws, es, t);
    assert WatchAt(c, ms, ws, es, t);
    a, x :| FollowsAt(c, ms, ws[t], a, x);
    y := PullFollows(c, l, g, ms, steps, ws[t], a, x, es[t].world);
    RunInv(c, l, g, ms, steps, a);
    RunInv(c, l, g, ms, steps, ws[t].writer);
    RunLater(c, l, g, ms, steps, a, ws[t].writer);
  }

  /** The transaction state at the end of a cut's committed stream of one shard. */
  ghost function Committed(c: Codec, cut: Cut, log: seq<seq<u8>>, shard: nat): Option<DT.Transaction>
    requires |cut.blocks| <= |log|
  {
    DT.Replay(ShardRows(c, cut.blocks, log[..|cut.blocks|], shard))
  }

  /** Transaction atomicity: a row the cursor emits never belongs to a depth transaction that is still
      open in the committed stream of the cut it holds, whatever arrived between the progress update
      and the cut. */
  lemma {:induction false} EmissionIsAtomic(
      c: Codec, l: Layout, g: Config, ms: seq<Moment>, steps: seq<Step>, begin: u64, budget: nat, ws: seq<Watch>,
      es: seq<Event>, t: nat, p: Stepped)
    requires Lawful(c) && DepthWidest(c) && IsRun(c, l, g, ms, steps) && Disciplined(ms, steps)
    requires IsWatch(c, ms, begin, budget, ws, es) && t < |es| && es[t].Pull?
    requires p == Next(c, es[t].world, ws[t].cursor) && p.emission.Emitted?
    ensures ws[t].writer < |ms| && ws[t].cursor.cut.Some?
    ensures |ws[t].cursor.cut.value.blocks| <= |ms[ws[t].writer].state.log|
    ensures var tx := Committed(c, ws[t].cursor.cut.value, ms[ws[t].writer].state.log, p.emission.record.shardIndex);
            tx.Some? && (tx.value.Open? ==> p.emission.record.shardSequence < tx.value.firstShardSequence)
  {
    HasCut(c, es[t].world, ws[t], p);
    var a, x, y := PullPlace(c, l, g, ms, steps, begin, budget, ws, es, t, p);
    OutsideOpen(c, ms[a], ms[ws[t].writer], ws[t].cursor, x, p, y);
  }

  lemma {:induction false} OutsideOpen(
      c: Codec, m: Moment, now: Moment, cur: Cursor, x: Reading, p: Stepped, y: Reading)
    requires MomentOk(c, m) && Later(m, now) && cur.cut.Some? && Following(c, cur, m, x)
    requires p.emission.Emitted? && Moved(cur.cut.value, x, p.emission, y)
    requires CursorOk(c, p.cursor, cur.cut.value, m.state.log, y)
    ensures |cur.cut.value.blocks| <= |now.state.log|
    ensures var tx := Committed(c, cur.cut.value, now.state.log, p.emission.record.shardIndex);
            tx.Some? && (tx.value.Open? ==> p.emission.record.shardSequence < tx.value.firstShardSequence)
  {
    var r := p.emission.record;
    EmittedShard(x, r, y, |m.state.segments|);
    EmittedOutside(c, cur.cut.value, m, r);
    MomentStream(c, cur.cut.value, m, r.shardIndex);
    assert now.state.log[..|cur.cut.value.blocks|] == m.state.log;
  }

  /** A cursor that reports the end has emitted the whole merge of a finalized cut, and every shard of
      that cut ends between transactions; on a finalized cut that ends inside one the cursor waits. */
  lemma {:induction false} EndIsComplete(
      c: Codec, l: Layout, g: Config, ms: seq<Moment>, steps: seq<Step>, begin: u64, budget: nat, ws: seq<Watch>,
      es: seq<Event>, t: nat, p: Stepped)
    requires Lawful(c) && DepthWidest(c) && IsRun(c, l, g, ms, steps) && Disciplined(ms, steps)
    requires IsWatch(c, ms, begin, budget, ws, es) && t < |es| && es[t].Pull?
    requires p == Next(c, es[t].world, ws[t].cursor) && p.emission.End?
    ensures ws[t].writer < |ms| && ws[t].cursor.cut.Some?
    ensures |ws[t].cursor.cut.value.blocks| <= |ms[ws[t].writer].state.log|
    ensures var cut, log := ws[t].cursor.cut.value, ms[ws[t].writer].state.log;
            var streams := CutStreams(c, cut, log, begin, cut.progress.shardCount);
            && cut.finalized && ws[t].emitted == Merged(streams)
            && forall n :: 0 <= n < |streams| ==> DT.Replay(streams[n]) == Some(DT.Idle)
  {
    HasCut(c, es[t].world, ws[t], p);
    var a, x, y := PullPlace(c, l, g, ms, steps, begin, budget, ws, es, t, p);
    EndHere(c, ms[a], ms[ws[t].writer], ws[t].cursor, x);
  }

  lemma {:induction false} EndHere(c: Codec, m: Moment, now: Moment, cur: Cursor, x: Reading)
    requires MomentOk(c, m) && MomentOk(c, now) && Later(m, now) && cur.cut.Some? && Following(c, cur, m, x)
    requires forall n :: 0 <= n < |x.rest| ==> x.rest[n] == []
    requires forall n :: 0 <= n < |x.streams| ==> DT.Replay(x.streams[n]) == Some(DT.Idle)
    ensures |cur.cut.value.blocks| <= |now.state.log|
    ensures var streams := CutStreams(c, cur.cut.value, now.state.log, cur.begin, cur.cut.value.progress.shardCount);
            x.emitted == Merged(streams) && forall n :: 0 <= n < |streams| ==> DT.Replay(streams[n]) == Some(DT.Idle)
  {
    CutStreamsView(c, cur.cut.value, m, now, cur.begin);
    NothingLeft(x, |cur.heads|);
  }

  lemma {:induction false} NothingLeft(x: Reading, shards: nat)
    requires ReadingOk(x, shards) && forall n :: 0 <= n < |x.rest| ==> x.rest[n] == []
    ensures x.emitted == Merged(x.streams)
  {
    ConsumedMerges(x.streams, x.emitted, x.rest);
    assert Best(x.rest, |x.rest|).None?;
  }

  // --- What a call returns ------------------------------------------------------------------------

  /** The rows given out so far are those the shards have behind them. */
  lemma {:induction false} EmittedDone(x: Reading, shards: nat, n: nat)
    requires ReadingOk(x, shards) && n < shards
    ensures OfShard(x.emitted, n) == x.done[n]
  {
    assert Splits(x, n);
    RestSharded(x, shards);
    ConsumedMerges(x.streams, x.emitted, x.rest);
    MergedKeepsShards(x.streams, n);
    MergedKeepsShards(x.rest, n);
    OfShardConcat(x.emitted, Merged(x.rest), n);
    SameFront(OfShard(x.emitted, n), x.done[n], x.rest[n]);
  }

  lemma {:induction false} SameFront(a: seq<Record>, b: seq<Record>, rest: seq<Record>)
    requires a + rest == b + rest
    ensures a == b
  {
    assert |a| == |b|;
    assert a == (a + rest)[..|a|] && b == (b + rest)[..|b|];
  }

  lemma {:induction false} RestSharded(x: Reading, shards: nat)
    requires ReadingOk(x, shards)
    ensures Sharded(x.rest)
  {
    forall n | 0 <= n < shards
      ensures DT.Sorted(x.rest[n]) && forall i :: 0 <= i < |x.rest[n]| ==> x.rest[n][i].shardIndex == n
    {
      assert Splits(x, n);
      SuffixOwned(x.done[n], x.rest[n], n);
    }
  }

  lemma {:induction false} SuffixOwned(done: seq<Record>, rest: seq<Record>, n: nat)
    requires DT.Sorted(done + rest) && forall i :: 0 <= i < |done + rest| ==> (done + rest)[i].shardIndex == n
    ensures DT.Sorted(rest) && forall i :: 0 <= i < |rest| ==> rest[i].shardIndex == n
  {
    assert forall i :: 0 <= i < |rest| ==> rest[i] == (done + rest)[|done| + i];
  }

  lemma {:induction false} OfShardHolds(rs: seq<Record>, i: nat)
    requires i < |rs|
    ensures rs[i] in OfShard(rs, rs[i].shardIndex)
    decreases i
  {
    if i > 0 { OfShardHolds(rs[1..], i - 1); }
  }

  lemma {:induction false} EmittedReleased(cut: Cut, x: Reading, shards: nat, i: nat)
    requires ReadingOk(x, shards) && shards <= MAXIMUM_SHARDS && i < |x.emitted|
    requires Behind(x.emitted, cut.progress.safeMonotonicNs) && AllDoneBehind(cut, x)
    ensures Released(cut, x.emitted[i])
  {
    var r := x.emitted[i];
    ConsumedMerges(x.streams, x.emitted, x.rest);
    assert Merged(x.streams)[i] == r;
    MergedComesFrom(x.streams, i);
    EmittedDone(x, shards, r.shardIndex);
    OfShardHolds(x.emitted, i);
    assert DoneBehind(cut, x, r.shardIndex);
  }

  /** What the emitted rows are to the merge of the cut in hand, and what is left of it. */
  lemma {:induction false} DueHere(c: Codec, m: Moment, now: Moment, cur: Cursor, x: Reading)
    requires MomentOk(c, m) && MomentOk(c, now) && Later(m, now) && cur.cut.Some? && Following(c, cur, m, x)
    ensures |cur.cut.value.blocks| <= |now.state.log|
    ensures var M := Merged(CutStreams(c, cur.cut.value, now.state.log, cur.begin, cur.cut.value.progress.shardCount));
            M == x.emitted + Merged(x.rest)
  {
    CutStreamsView(c, cur.cut.value, m, now, cur.begin);
    ConsumedMerges(x.streams, x.emitted, x.rest);
  }

  lemma {:induction false} AllReleased(c: Codec, m: Moment, cur: Cursor, x: Reading)
    requires MomentOk(c, m) && cur.cut.Some? && Following(c, cur, m, x)
    ensures forall i :: 0 <= i < |x.emitted| ==> Released(cur.cut.value, x.emitted[i])
  {
    forall i | 0 <= i < |x.emitted|
      ensures Released(cur.cut.value, x.emitted[i])
    {
      EmittedReleased(cur.cut.value, x, |cur.heads|, i);
    }
  }

  lemma {:induction false} DueFrom(cut: Cut, M: seq<Record>, x: Reading, emission: Emission)
    requires M == x.emitted + Merged(x.rest) && emission == Owed(cut, x)
    ensures x.emitted <= M && emission == Due(cut, M[|x.emitted|..])
  {
    assert M[|x.emitted|..] == Merged(x.rest);
  }

  /** A call returns exactly what is due: the next row of the merge of the cut in hand if the cut's
      progress has passed it, the end if nothing is left of a finalized cut, and otherwise the call to
      wait.  So whenever the cursor waits it has given out the longest run of rows it may. */
  lemma {:induction false} EmissionIsDue(
      c: Codec, l: Layout, g: Config, ms: seq<Moment>, steps: seq<Step>, begin: u64, budget: nat, ws: seq<Watch>,
      es: seq<Event>, t: nat, p: Stepped)
    requires Lawful(c) && DepthWidest(c) && IsRun(c, l, g, ms, steps) && Disciplined(ms, steps)
    requires IsWatch(c, ms, begin, budget, ws, es) && t < |es| && es[t].Pull?
    requires p == Next(c, es[t].world, ws[t].cursor) && ws[t].cursor.cut.Some?
    ensures ws[t].writer < |ms| && |ws[t].cursor.cut.value.blocks| <= |ms[ws[t].writer].state.log| && p.status == Ok
    ensures var cut, log, emitted := ws[t].cursor.cut.value, ms[ws[t].writer].state.log, ws[t].emitted;
            var M := Merged(CutStreams(c, cut, log, begin, cut.progress.shardCount));
            && emitted <= M && p.emission == Due(cut, M[|emitted|..])
            && forall i :: 0 <= i < |emitted| ==> Released(cut, emitted[i])
  {
    var a, x, y := PullPlace(c, l, g, ms, steps, begin, budget, ws, es, t, p);
    var cut, log := ws[t].cursor.cut.value, ms[ws[t].writer].state.log;
    DueHere(c, ms[a], ms[ws[t].writer], ws[t].cursor, x);
    AllReleased(c, ms[a], ws[t].cursor, x);
    DueFrom(cut, Merged(CutStreams(c, cut, log, begin, cut.progress.shardCount)), x, p.emission);
  }

  // --- Adoption -----------------------------------------------------------------------------------

  /** Somebody vouches for the offer: the writer that published it, the sealed manifest, or an approval
      of its generation. */
  ghost predicate VouchedFor(offer: Offer) {
    || offer.acknowledged || offer.archived
    || (offer.approval.Approved? && offer.cut.generation <= offer.approval.generation)
  }

  lemma {:induction false} BudgetExact(c: Codec, cut: Cut, maximum: nat)
    ensures WithinBudget(c, cut, maximum) <==> Fixed(c, cut.progress.shardCount) + 3 * CutFile.CutBytes(cut) <= maximum
  {
  }

  lemma {:induction false} RefreshExact(c: Codec, cur: Cursor, offer: Offer)
    requires !cur.failed && (cur.cut.Some? ==> Continues(cur.cut.value, offer.cut))
    ensures var (status, after) := Refresh(c, cur, offer);
            if WithinBudget(c, offer.cut, cur.maximumResidentBytes) && VouchedFor(offer)
            then status == Ok && after.cut == Some(offer.cut) && !after.failed
            else after == cur
  {
  }

  lemma {:induction false} OfferContinues(
      c: Codec, l: Layout, g: Config, ms: seq<Moment>, steps: seq<Step>, w: Watch, a: nat, x: Reading, k: nat)
    requires Lawful(c) && IsRun(c, l, g, ms, steps) && FollowsAt(c, ms, w, a, x)
    requires k < |ms[w.writer].cuts| && w.cursor.cut.value.generation <= k + 1
    ensures !w.cursor.failed && Continues(w.cursor.cut.value, ms[w.writer].cuts[k])
  {
    var b := OfferPlace(c, l, g, ms, steps, w, a, x, k);
    RunInv(c, l, g, ms, steps, a);
    RunInv(c, l, g, ms, steps, b);
    RunLater(c, l, g, ms, steps, a, b);
    MomentsContinue(c, w.cursor.cut.value, ms[a], ms[w.writer].cuts[k], ms[b]);
  }

  /** A look at a published cut no older than the one in hand takes it up if and only if the cut fits
      the budget three times over beside the fixed buffers and somebody vouches for it, and leaves
      the cursor alone otherwise. */
  lemma {:induction false} LookAdopts(
      c: Codec, l: Layout, g: Config, ms: seq<Moment>, steps: seq<Step>, begin: u64, budget: nat, ws: seq<Watch>,
      es: seq<Event>, t: nat)
    requires Lawful(c) && DepthWidest(c) && IsRun(c, l, g, ms, steps) && Disciplined(ms, steps)
    requires IsWatch(c, ms, begin, budget, ws, es) && t < |es| && es[t].Look?
    ensures var offer := es[t].offer;
            if Fixed(c, offer.cut.progress.shardCount) + 3 * CutFile.CutBytes(offer.cut) <= budget && VouchedFor(offer)
            then Refresh(c, ws[t].cursor, offer).0 == Ok && ws[t + 1].cursor.cut == Some(offer.cut)
            else ws[t + 1] == ws[t]
  {
    WatchesOk(c, l, g, ms, steps, begin, budget, ws, es, t);
    assert WatchAt(c, ms, ws, es, t);
    if !Waiting(ws[t]) {
      var a, x :| FollowsAt(c, ms, ws[t], a, x);
      OfferContinues(c, l, g, ms, steps, ws[t], a, x, es[t].k);
    }
    RefreshExact(c, ws[t].cursor, es[t].offer);
    BudgetExact(c, es[t].offer.cut, budget);
  }

  // === Which cut a refresh can adopt =========================================================================

  /** The offer a reader makes of the cut it holds and the authorities it has collected. */
  function OfferOf(r: D.Reader): Offer
    requires r.Holding?
  {
    Offer(r.cut, r.acknowledged, r.archived, if r.approval.Some? then Approved(r.approval.value) else NoAuthority)
  }

  /** Event i of a play begins the publication of a cut that is not one of `cuts`. */
  ghost predicate Strays(es: seq<D.Event>, i: int, cuts: seq<Cut>) {
    && 0 <= i < |es| && es[i].Begin? && es[i].cut.generation <= |cuts|
    && (es[i].cut.generation == 0 || es[i].cut != cuts[es[i].cut.generation - 1])
  }

  /** The writer of a play publishes these cuts, in this order; it may have begun one more. */
  ghost predicate Publishes(es: seq<D.Event>, cuts: seq<Cut>) {
    forall i {:trigger Strays(es, i, cuts)} :: 0 <= i < |es| ==> !Strays(es, i, cuts)
  }

  ghost predicate Among(cut: Cut, cuts: seq<Cut>) {
    0 < cut.generation <= |cuts| ==> cut == cuts[cut.generation - 1]
  }

  ghost predicate StageAmong(g: D.Stage, cuts: seq<Cut>) {
    !g.Resting? && !g.Failed? ==> Among(g.cut, cuts) && g.cut.generation > 0
  }

  ghost predicate AllAmong(all: set<Cut>, cuts: seq<Cut>) {
    forall cut {:trigger cut in all} :: cut in all ==> Among(cut, cuts) && cut.generation > 0
  }

  /** Every cut that was ever on disk is one of `cuts`, or newer than all of them. */
  ghost predicate Keeps(s: D.Store, cuts: seq<Cut>) {
    StageAmong(s.stage, cuts) && AllAmong(s.seen, cuts) && AllAmong(s.durable, cuts)
  }

  lemma {:induction false} StepKeeps(w: D.World, e: D.Event, cuts: seq<Cut>)
    requires Keeps(w.store, cuts) && D.Step(w, e, false).Some?
    requires e.Begin? && 0 < e.cut.generation <= |cuts| ==> e.cut == cuts[e.cut.generation - 1]
    ensures Keeps(D.Step(w, e, false).value.store, cuts)
  {
  }

  lemma {:induction false} PlayKeeps(w: D.World, es: seq<D.Event>, cuts: seq<Cut>)
    requires Keeps(w.store, cuts) && D.Play(w, es, false).Some? && Publishes(es, cuts)
    ensures Keeps(D.Play(w, es, false).value.store, cuts)
    decreases |es|
  {
    if es != [] {
      assert !Strays(es, 0, cuts);
      StepKeeps(w, es[0], cuts);
      forall i | 0 <= i < |es[1..]|
        ensures !Strays(es[1..], i, cuts)
      {
        assert !Strays(es, i + 1, cuts);
      }
      PlayKeeps(D.Step(w, es[0], false).value, es[1..], cuts);
    }
  }

  /** Without an authority a refresh leaves the cursor as it is. */
  lemma {:induction false} RefreshNeedsAuthority(c: Codec, cur: Cursor, r: D.Reader)
    requires r.Holding? && Refresh(c, cur, OfferOf(r)).1 != cur
    ensures D.MayAdopt(r)
  {
  }

  /** A refresh that changes the cursor was offered one of the acknowledged cuts, already durable and
      no older than the one the reader adopted last. */
  lemma {:induction false} RefreshedIsDurable(c: Codec, cur: Cursor, es: seq<D.Event>, cuts: seq<Cut>)
    requires D.Play(D.EMPTY, es, false).Some? && Publishes(es, cuts)
    requires D.Play(D.EMPTY, es, false).value.reader.Holding?
    requires D.Play(D.EMPTY, es, false).value.store.approved <= |cuts|
    requires Refresh(c, cur, OfferOf(D.Play(D.EMPTY, es, false).value.reader)).1 != cur
    ensures var w := D.Play(D.EMPTY, es, false).value;
            && D.Standing(w.store, w.reader.cut) && w.last <= w.reader.cut.generation
            && 0 < w.reader.cut.generation <= |cuts| && w.reader.cut == cuts[w.reader.cut.generation - 1]
  {
    var w := D.Play(D.EMPTY, es, false).value;
    D.PlaySafe(D.EMPTY, es);
    PlayKeeps(D.EMPTY, es, cuts);
    RefreshNeedsAuthority(c, cur, w.reader);
    D.AuthorityStands(w.store, w.reader, w.last);
  }

  /** So the looks of a watch are all the looks there are: whatever steps the writer and the reader
      have taken, a refresh leaves the cursor alone or is a look of the watch, at a durable cut. */
  lemma {:induction false} LooksAreDurable(c: Codec, ms: seq<Moment>, w: Watch, es: seq<D.Event>)
    requires w.writer < |ms| && D.Play(D.EMPTY, es, false).Some? && Publishes(es, ms[w.writer].cuts)
    requires D.Play(D.EMPTY, es, false).value.reader.Holding?
    requires D.Play(D.EMPTY, es, false).value.store.approved == |ms[w.writer].cuts|
    requires w.cursor.cut.Some? ==> w.cursor.cut.value.generation == D.Play(D.EMPTY, es, false).value.last
    ensures var r := D.Play(D.EMPTY, es, false).value.reader;
            var w' := w.(cursor := Refresh(c, w.cursor, OfferOf(r)).1);
            || w' == w
            || (&& r.cut.generation > 0 && WatchTo(c, ms, w, Look(OfferOf(r), r.cut.generation - 1), w')
                && D.Standing(D.Play(D.EMPTY, es, false).value.store, r.cut))
  {
    if Refresh(c, w.cursor, OfferOf(D.Play(D.EMPTY, es, false).value.reader)).1 != w.cursor {
      RefreshedIsDurable(c, w.cursor, es, ms[w.writer].cuts);
    }
  }
}
