/** The corpus writer as an object whose methods update its fields step by step
    (src/Runtime/src/Corpus/BinaryMarketCorpusWriter.cpp).  Every method is proved against the
    function of the same name in module Writer; the theorems about runs are about those functions. */
module WriterObject {
  import opened Numbers
  import opened Records
  import opened Storage
  import opened Formats
  import opened Publication
  import opened Index
  import SS = SourceState
  import DT = DepthTransaction
  import W = Writer

  class CorpusWriter {
    const codec: Codec
    const layout: Layout
    const config: W.Config
    const publication: CorpusPublication
    var manifest: Manifest
    var sources: seq<Source>
    var sourceStates: seq<SS.State>
    var index: seq<Entry>
    var gaps: seq<Gap>
    var segments: seq<W.Segment>
    var depth: seq<DT.Transaction>
    var projectedBytes: int
    var writeLimitBytes: int
    var maximumGapRecords: nat
    var nextSegmentNumber: nat
    var active: bool
    var quotaReached: bool
    var progress: Progress
    var blocks: seq<BlockRange>
    var log: seq<seq<u8>>
    var files: map<nat, W.SegmentHeader>
    var referencePayload: seq<u8>
    var latest: Option<Cut>
    var cutGeneration: nat
    var cutReservedBytes: int
    var referenceReservedBytes: nat
    var replayAnchorFrozen: bool

    /** The writer's whole state as one value. */
    ghost function Value(): W.State
      reads this, publication
    {
      W.State(config, manifest, sources, sourceStates, index, gaps, segments, depth, projectedBytes, writeLimitBytes,
              maximumGapRecords, nextSegmentNumber, active, quotaReached, progress, blocks, log, publication.blocks,
                  files,
              referencePayload, latest, cutGeneration, cutReservedBytes, referenceReservedBytes, replayAnchorFrozen)
    }

    ghost predicate Valid()
      reads this, publication
    {
      && publication.Valid() && publication.capacity == W.CacheCapacity(config)
      && |segments| <= 0x1_0000 && W.Shape(Value()) && W.Positioned(Value())
    }

    constructor (codec: Codec, layout: Layout, state: W.State)
      requires state.cache == [] && |state.segments| <= 0x1_0000 && W.Shape(state) && W.Positioned(state)
      ensures Valid() && Value() == state && this.codec == codec && this.layout == layout && fresh(publication)
    {
      this.codec := codec;
      this.layout := layout;
      config := state.config;
      publication := new CorpusPublication(W.CacheCapacity(state.config));
      manifest, sources, sourceStates, index, gaps := state.manifest, state.sources, state.sourceStates, state.index,
          state.gaps;
      segments, depth, projectedBytes, writeLimitBytes := state.segments, state.depth, state.projectedBytes,
          state.writeLimitBytes;
      maximumGapRecords, nextSegmentNumber := state.maximumGapRecords, state.nextSegmentNumber;
      active, quotaReached, progress := state.active, state.quotaReached, state.progress;
      blocks, log, files := state.blocks, state.log, state.files;
      referencePayload, latest, cutGeneration := state.referencePayload, state.latest, state.cutGeneration;
      cutReservedBytes, referenceReservedBytes := state.cutReservedBytes, state.referenceReservedBytes;
      replayAnchorFrozen := state.replayAnchorFrozen;
    }

    /** Start a writer on a validated configuration whose quota holds the initial reservations. */
    static method Open(codec: Codec, layout: Layout, g: W.Config) returns (status: Status, writer: CorpusWriter?)
      ensures match W.Start(codec, g)
              case Started(state) => status == Ok && writer != null && fresh(writer) && fresh(writer.publication)
                                     && writer.Valid() && writer.Value() == state && writer.codec == codec
                                     && writer.layout == layout
              case Refused(refusal) => status == refusal && writer == null
    {
      match W.Start(codec, g)
      case Refused(refusal) => return refusal, null;
      case Started(state) =>
        writer := new CorpusWriter(codec, layout, state);
        status := Ok;
    }

    // --- Blocks and segments ----------------------------------------------------------------------

    /** The reference to the block that the pending rows of shard n become. */
    method DescribeBlock(n: nat, bytes: seq<u8>) returns (range: BlockRange)
      requires Valid() && n < |segments| && segments[n].pending != []
      ensures range == W.PendingBlock(codec, Value(), n, bytes)
    {
      var g := segments[n];
      var first, last := g.pending[0], g.pending[|g.pending| - 1];
      var header := BlockHeader(g.blockCount + 1, |g.pending|, |g.pending| * RECORD_BYTES, |bytes|,
                                codec.crcRows(0, g.pending), codec.crc(bytes), first.shardSequence, last.shardSequence,
                                    0,
                                first.channel);
      header := header.(headerCrc := codec.crc(codec.headerBytes(header)));
      range :=
          BlockRange(SEGMENT_HEADER_BYTES + g.storedBytes, first.receiveMonotonicNs, last.receiveMonotonicNs, g.number,
              n, header);
    }

    /** Append the block to its file, list its reference, retain its bytes. */
    method WriteBlock(range: BlockRange, bytes: seq<u8>)
      requires Valid()
      modifies this`blocks, this`log, publication
      ensures Valid()
      ensures Value() == old(Value()).(blocks := old(blocks) + [range], log := old(log) + [bytes],
                                       cache := Retain(W.CacheCapacity(config), old(Value()).cache, range, bytes))
    {
      publication.RetainBlock(range, bytes);
      blocks := blocks + [range];
      log := log + [bytes];
    }

    /** Empty the buffer of shard n and give back the bytes its rows had over-reserved. */
    method Settle(n: nat, physical: nat, released: int)
      requires Valid() && n < |segments|
      modifies this`projectedBytes, this`segments
      ensures Valid()
      ensures var g := old(segments)[n];
              Value() == old(Value()).(projectedBytes := old(projectedBytes) - released,
                                       segments := old(segments)[n := g.(projectedBytes := g.projectedBytes - released,
                                                                         storedBytes := g.storedBytes + physical,
                                                                         blockCount := g.blockCount + 1,
                                                                             pending := [])])
    {
      var g := segments[n];
      projectedBytes := projectedBytes - released;
      segments :=
          segments[n := g.(projectedBytes := g.projectedBytes - released, storedBytes := g.storedBytes + physical,
                                   blockCount := g.blockCount + 1, pending := [])];
    }

    method StoreBlock(n: nat, bytes: seq<u8>)
      requires Valid() && n < |segments| && segments[n].pending != []
      modifies this, publication
      ensures Valid() && Value() == W.StoreBlock(codec, old(Value()), n, bytes)
    {
      var range := DescribeBlock(n, bytes);
      var physical := BLOCK_HEADER_BYTES + |bytes|;
      var released := |segments[n].pending| * PendingRecordBytes(codec) - physical;
      WriteBlock(range, bytes);
      Settle(n, physical, released);
    }

    /** Compress the pending rows of shard n and write them as one block. */
    method FlushBlock(n: nat) returns (ok: bool)
      requires Valid() && n < |segments|
      modifies this, publication
      ensures ok == W.FlushBlock(codec, old(Value()), n).Some?
      ensures ok ==> Valid() && Value() == W.FlushBlock(codec, old(Value()), n).value
    {
      var g := segments[n];
      if g.pending == [] { return true; }
      var bytes := codec.encode(g.pending[0].channel, g.pending);
      if bytes.None? || bytes.value == [] || |bytes.value| > codec.bound(Depth, BLOCK_RECORDS) ||
          g.blockCount == U32_MAX {
        return false;
      }
      if BLOCK_HEADER_BYTES + |bytes.value| > |g.pending| * PendingRecordBytes(codec) { return false; }
      StoreBlock(n, bytes.value);
      return true;
    }

    method FlushAll() returns (ok: bool)
      requires Valid()
      modifies this, publication
      ensures ok == W.FlushAll(codec, old(Value()), |old(segments)|).Some?
      ensures ok ==> Valid() && Value() == W.FlushAll(codec, old(Value()), |old(segments)|).value
    {
      ghost var before := Value();
      var count := |segments|;
      var n := 0;
      while n < count
        invariant 0 <= n <= count == |segments| == |before.segments| && Valid()
        invariant W.FlushAll(codec, before, n) == Some(Value())
        modifies this, publication
      {
        if segments[n].open {
          var flushed := FlushBlock(n);
          if !flushed {
            FlushFails(codec, before, n + 1, count);
            return false;
          }
        }
        n := n + 1;
      }
      return true;
    }

    method CloseSegment(n: nat)
      requires Valid() && n < |segments|
      modifies this
      ensures Valid() && Value() == W.CloseSegment(old(Value()), n)
    {
      var g := segments[n];
      files :=
          files[g.number :=
              W.SegmentHeader(g.number, config.producerEpoch, n, g.recordCount, g.blockCount, g.storedBytes,
                                                 g.recordsCrc, g.firstReceiveNs, g.lastReceiveNs)];
      manifest := manifest.(segmentCount := manifest.segmentCount + 1);
      segments := segments[n := g.(open := false, positions := map[])];
    }

    /** Flush, write the final header and footer, rename. */
    method SealSegment(n: nat) returns (ok: bool)
      requires Valid() && n < |segments|
      modifies this, publication
      ensures ok == W.SealSegment(codec, old(Value()), n).Some?
      ensures ok ==> Valid() && Value() == W.SealSegment(codec, old(Value()), n).value
    {
      if !segments[n].open { return true; }
      ok := FlushBlock(n);
      if ok { CloseSegment(n); }
    }

    method SealAll() returns (ok: bool)
      requires Valid()
      modifies this, publication
      ensures ok == W.SealAll(codec, old(Value()), |old(segments)|).Some?
      ensures ok ==> Valid() && Value() == W.SealAll(codec, old(Value()), |old(segments)|).value
    {
      ghost var before := Value();
      var count := |segments|;
      var n := 0;
      while n < count
        invariant 0 <= n <= count == |segments| == |before.segments| && Valid()
        invariant W.SealAll(codec, before, n) == Some(Value())
        modifies this, publication
      {
        var sealed := SealSegment(n);
        if !sealed {
          SealFails(codec, before, n + 1, count);
          return false;
        }
        n := n + 1;
      }
      return true;
    }

    method OpenSegment(n: nat)
      requires Valid() && n < |segments|
      modifies this
      ensures Valid() && Value() == W.OpenSegment(old(Value()), n)
    {
      var g := segments[n];
      segments :=
          segments[n := W.NO_SEGMENT.(open := true, number := nextSegmentNumber, projectedBytes := W.SEGMENT_FRAME,
                                              previousSequence := g.previousSequence,
                                                  previousMonotonicNs := g.previousMonotonicNs)];
      nextSegmentNumber := nextSegmentNumber + 1;
    }

    // --- Sources ----------------------------------------------------------------------------------

    /** The number of sources there will be, or None if an announced one is refused. */
    method CountSources(incoming: seq<Source>) returns (total: Option<nat>)
      ensures total == W.RegisteredCount(Value(), incoming, |sources|)
    {
      var count := |sources|;
      var i := 0;
      while i < |incoming|
        invariant 0 <= i <= |incoming| && |sources| <= count <= |sources| + i
        invariant W.RegisteredCount(Value(), incoming[i..], count) == W.RegisteredCount(Value(), incoming, |sources|)
      {
        var x := incoming[i];
        assert incoming[i..][0] == x && incoming[i..][1..] == incoming[i + 1..];
        if x.sourceId == 0 || !ValidSource(x, x.sourceId - 1) { return None; }
        if x.sourceId <= |sources| {
          if !SS.SameIdentity(sources[x.sourceId - 1], x) { return None; }
        } else if x.sourceId == count + 1 && count < MAXIMUM_SOURCES {
          count := count + 1;
        } else {
          return None;
        }
        i := i + 1;
      }
      assert incoming[|incoming|..] == [];
      return Some(count);
    }

    method RegisterSources(incoming: seq<Source>) returns (status: Status)
      requires Valid()
      modifies this
      ensures Valid() && W.RegisterSources(old(Value()), incoming) == W.Done(status, Value())
    {
      if !active || |incoming| > MAXIMUM_SOURCES { return InvalidArgument; }
      var total := CountSources(incoming);
      if total.None? { return InvalidArgument; }
      var added := total.value - |sources|;
      if !W.AddWithin(cutReservedBytes, added * (2 * W.SOURCE_STORAGE), U64_MAX)
         || !W.AddWithin(projectedBytes, added * W.SOURCE_RESERVATION, writeLimitBytes) {
        quotaReached := true;
        return OutOfRange;
      }
      ReserveSources(added);
      AddSources(incoming);
      ListSources();
      return Ok;
    }

    method ReserveSources(added: nat)
      requires Valid()
      modifies this`projectedBytes, this`cutReservedBytes
      ensures Valid()
      ensures Value() == old(Value()).(projectedBytes := old(projectedBytes) + added * W.SOURCE_RESERVATION,
                                       cutReservedBytes := old(cutReservedBytes) + added * (2 * W.SOURCE_STORAGE))
    {
      projectedBytes := projectedBytes + added * W.SOURCE_RESERVATION;
      cutReservedBytes := cutReservedBytes + added * (2 * W.SOURCE_STORAGE);
    }

    method ListSources()
      requires Valid()
      modifies this`manifest, this`maximumGapRecords
      ensures Valid()
      ensures Value() == old(Value()).(manifest := old(manifest).(sourceCount := |sources|),
              maximumGapRecords := |sources| * STORED_CHANNELS)
    {
      manifest := manifest.(sourceCount := |sources|);
      maximumGapRecords := |sources| * STORED_CHANNELS;
    }

    /** Add the new ones among the announced sources, inactive. */
    method AddSources(incoming: seq<Source>)
      requires Valid()
      modifies this`sources, this`sourceStates
      ensures Valid() && Value() == W.AddSources(old(Value()), incoming)
    {
      ghost var before := Value();
      var i := 0;
      while i < |incoming|
        invariant 0 <= i <= |incoming| && Valid()
        invariant W.AddSources(Value(), incoming[i..]) == W.AddSources(before, incoming)
      {
        var x := incoming[i];
        assert incoming[i..][0] == x && incoming[i..][1..] == incoming[i + 1..];
        if x.sourceId > |sources| {
          sources := sources + [W.Inactive(x)];
          sourceStates := sourceStates + [SS.Initial(W.Inactive(x))];
        }
        i := i + 1;
      }
      assert incoming[|incoming|..] == [];
    }

    // --- Appending --------------------------------------------------------------------------------

    /** Find or add the row's index entry and bring it up to date. */
    method TouchIndex(n: nat, r: Record)
      requires Valid() && n < |segments|
      modifies this`index, this`segments
      ensures Valid() && Value() == W.IndexRow(old(Value()), n, r) && |segments| == |old(segments)|
    {
      var g := segments[n];
      if KeyOf(r) in g.positions {
        var at := g.positions[KeyOf(r)];
        index := index[at := Touch(index[at], r)];
      } else {
        segments := segments[n := g.(positions := g.positions[KeyOf(r) := |index|])];
        index := index + [Touch(Fresh(g.number, n, KeyOf(r)), r)];
      }
    }

    /** Put the row at the end of its shard's buffer. */
    method BufferRow(n: nat, r: Record)
      requires Valid() && n < |segments|
      modifies this`segments
      ensures Valid() && Value() == W.BufferRow(codec, old(Value()), n, r) && |segments| == |old(segments)|
    {
      var g := segments[n];
      segments := segments[n := g.(
        pending := g.pending + [r], previousSequence := r.shardSequence, previousMonotonicNs := r.receiveMonotonicNs,
        recordsCrc := codec.crcRows(g.recordsCrc, [r]), recordCount := g.recordCount + 1,
        projectedBytes := g.projectedBytes + PendingRecordBytes(codec),
        firstReceiveNs := MinReceive(g.firstReceiveNs, r), lastReceiveNs := MaxReceive(g.lastReceiveNs, r))];
    }

    method CountRow(r: Record)
      modifies this`manifest
      ensures manifest == W.CountRow(old(manifest), r)
    {
      if r.receiveMonotonicNs < manifest.replayAnchorMonotonicNs {
        manifest :=
            manifest.(replayAnchorMonotonicNs := r.receiveMonotonicNs, replayAnchorReceiveNs := r.receiveRealtimeNs);
      }
      manifest :=
          manifest.(recordCount := manifest.recordCount + 1, firstReceiveNs := MinReceive(manifest.firstReceiveNs, r),
                            lastReceiveNs := MaxReceive(manifest.lastReceiveNs, r));
    }

    method FinishRow(r: Record, source: SS.State, transaction: DT.Transaction)
      requires Valid() && r.shardIndex < |depth| && 0 < r.sourceId <= |sourceStates|
      modifies this`sourceStates, this`depth, this`manifest
      ensures Valid() && Value() == old(Value()).(sourceStates := old(sourceStates)[r.sourceId - 1 := source],
                                       depth := old(depth)[r.shardIndex := transaction],
                                           manifest := W.CountRow(old(manifest), r))
    {
      sourceStates := sourceStates[r.sourceId - 1 := source];
      depth := depth[r.shardIndex := transaction];
      CountRow(r);
    }

    method TakeRow(r: Record, v: W.Verdict)
      requires Valid() && v.Accept? && r.shardIndex < |segments| && 0 < r.sourceId <= |sources|
      modifies this
      ensures Valid() && Value() == W.TakeRow(codec, old(Value()), r, v)
    {
      TouchIndex(r.shardIndex, r);
      BufferRow(r.shardIndex, r);
      FinishRow(r, v.source, v.transaction);
    }

    method AddSource(added: Option<Source>, source: SS.State)
      requires Valid()
      modifies this`sources, this`sourceStates, this`manifest, this`maximumGapRecords
      ensures Valid() && Value() == W.AddSource(old(Value()), added, source)
    {
      match added
      case None =>
      case Some(x) =>
        sources := sources + [x];
        sourceStates := sourceStates + [source];
        manifest := manifest.(sourceCount := manifest.sourceCount + 1);
        maximumGapRecords := maximumGapRecords + STORED_CHANNELS;
    }

    method Pay(required: nat, growth: nat)
      requires Valid()
      modifies this`projectedBytes, this`cutReservedBytes
      ensures Valid()
      ensures Value() == old(Value()).(projectedBytes := old(projectedBytes) + required,
              cutReservedBytes := old(cutReservedBytes) + growth)
    {
      projectedBytes := projectedBytes + required;
      cutReservedBytes := cutReservedBytes + growth;
    }

    method SeatRow(n: nat, rotate: bool, openNeeded: bool) returns (ok: bool)
      requires Valid() && n < |segments| && (rotate ==> openNeeded)
      modifies this, publication
      ensures ok == W.SeatRow(codec, old(Value()), n, rotate, openNeeded).Some?
      ensures ok ==> Valid() && Value() == W.SeatRow(codec, old(Value()), n, rotate, openNeeded).value
    {
      ok := true;
      if rotate { ok := SealSegment(n); }
      if ok && openNeeded { OpenSegment(n); }
    }

    /** Pay for the row, then rotate, open and add what it needs. */
    method PrepareRow(r: Record, v: W.Verdict, p: W.Plan) returns (ok: bool)
      requires Valid() && W.Admitted(Value(), r, v) && (p.rotate ==> p.openNeeded)
      modifies this, publication
      ensures ok == W.PrepareRow(codec, old(Value()), r, v, p).Some?
      ensures ok ==> Valid() && Value() == W.PrepareRow(codec, old(Value()), r, v, p).value
    {
      Pay(W.RequiredBytes(codec, p, v.added.Some?), W.CutGrowth(v.added.Some?));
      assert Value() == W.Reserve(codec, old(Value()), p, v.added.Some?);
      ok := SeatRow(r.shardIndex, p.rotate, p.openNeeded);
      if ok { AddSource(v.added, v.source); }
    }

    method CommitRow(r: Record, v: W.Verdict, p: W.Plan) returns (status: Status, alive: bool)
      requires Valid() && W.Admitted(Value(), r, v) && (p.rotate ==> p.openNeeded)
      modifies this, publication
      ensures match W.CommitRow(codec, old(Value()), r, v, p)
              case Done(s, t) => alive && status == s && Valid() && Value() == t
              case Broken(s) => !alive && status == s
    {
      var reached := quotaReached;
      var ok := PrepareRow(r, v, p);
      if !ok { return IoError, false; }
      if KeyOf(r) !in segments[r.shardIndex].positions
         && (|index| >= config.maximumBytes / INDEX_ENTRY_BYTES || |index| >= U32_MAX) {
        return if reached then OutOfRange else IoError, false;
      }
      TakeRow(r, v);
      return Ok, true;
    }

    method ReserveRow(r: Record, v: W.Verdict) returns (status: Status, alive: bool)
      requires Valid() && W.Admitted(Value(), r, v)
      modifies this, publication
      ensures match W.ReserveRow(codec, old(Value()), r, v)
              case Done(s, t) => alive && status == s && Valid() && Value() == t
              case Broken(s) => !alive && status == s
    {
      var p := Plan(r);
      var required := W.RequiredBytes(codec, p, v.added.Some?);
      if || !W.AddWithin(cutReservedBytes, W.CutGrowth(v.added.Some?), U64_MAX) || required > U64_MAX
         || (p.openNeeded && nextSegmentNumber == U32_MAX) { return OutOfRange, true; }
      if W.AddWithin(projectedBytes, required, writeLimitBytes) {
        status, alive := CommitRow(r, v, p);
      } else {
        status, alive := FlushAndRetry(r, v, p, required);
      }
    }

    /** Flush every pending block once before giving up on the row. */
    method FlushAndRetry(r: Record, v: W.Verdict, p: W.Plan, required: nat) returns (status: Status, alive: bool)
      requires Valid() && W.Admitted(Value(), r, v) && (p.rotate ==> p.openNeeded)
      modifies this, publication
      ensures alive ==> W.FlushAll(codec, old(Value()), |old(segments)|).Some?
      ensures match W.FlushAll(codec, old(Value()), |old(segments)|)
              case None => !alive && status == IoError
              case Some(f) =>
                if W.AddWithin(f.projectedBytes, required, old(writeLimitBytes)) then
                  && W.Shape(f) && W.Positioned(f) && |f.segments| <= 0x1_0000 && W.Admitted(f, r, v)
                  && match W.CommitRow(codec, f, r, v, p)
                     case Done(s, t) => alive && status == s && Valid() && Value() == t
                     case Broken(s) => !alive && status == s
                else alive && status == OutOfRange && Valid() && Value() == f.(quotaReached := true)
    {
      ghost var before := Value();
      var ok := FlushAll();
      if !ok { return IoError, false; }
      W.FlushAllFrame(codec, before, |before.segments|);
      if W.AddWithin(projectedBytes, required, writeLimitBytes) {
        status, alive := CommitRow(r, v, p);
      } else {
        quotaReached := true;
        return OutOfRange, true;
      }
    }

    /** What the row needs beside its own bytes. */
    method Plan(r: Record) returns (p: W.Plan)
      requires r.shardIndex < |segments|
      ensures p == W.PlanOf(codec, Value(), r)
    {
      var g := segments[r.shardIndex];
      var rotate := && g.open && g.pending == [] && g.recordCount != 0
                    && (|| g.projectedBytes > config.segmentTargetBytes
                        || PendingRecordBytes(codec) > config.segmentTargetBytes - g.projectedBytes);
      p := W.Plan(rotate, !g.open || rotate, !g.open || rotate || KeyOf(r) !in g.positions);
    }

    /** Everything that decides whether the row is admitted, without changing anything. */
    method Judge(r: Record) returns (v: W.Verdict)
      requires Valid()
      ensures v == W.Judge(Value(), r)
    {
      var lifecycle := r.channel == SourceLifecycle;
      if !active { return W.Reject(InvalidArgument); }
      if replayAnchorFrozen && r.receiveMonotonicNs < manifest.replayAnchorMonotonicNs { return W.Reject(CorruptData); }
      if || !ValidRecord(r) || r.shardIndex >= |segments| || r.sourceId > |sources| + (if lifecycle then 1 else 0) ||
          !r.tailZero {
        return W.Reject(InvalidArgument);
      }
      var transaction := DT.Advance(r, depth[r.shardIndex]);
      if transaction.None? { return W.Reject(InvalidArgument); }
      var added := None;
      var from: SS.State;
      if r.sourceId == |sources| + 1 {
        var p := r.payload.lifecycle;
        if |sources| >= MAXIMUM_SOURCES { return W.Reject(OutOfRange); }
        if p.kind != Added || p.previousGeneration != 0 { return W.Reject(InvalidArgument); }
        added := Some(p.source.(initiallyPresent := false));
        from := SS.Initial(added.value);
      } else {
        from := sourceStates[r.sourceId - 1];
      }
      var next := SS.Advance(r, from, false);
      var g := segments[r.shardIndex];
      if || next.None? || (g.previousSequence != 0 && r.shardSequence <= g.previousSequence)
         || (g.previousMonotonicNs != 0 &&
             r.receiveMonotonicNs < g.previousMonotonicNs) { return W.Reject(InvalidArgument); }
      return W.Accept(next.value, transaction.value, added);
    }

    method Append(r: Record) returns (status: Status, alive: bool)
      requires Valid()
      modifies this, publication
      ensures match W.Append(codec, old(Value()), r)
              case Done(s, t) => alive && status == s && Valid() && Value() == t
              case Broken(s) => !alive && status == s
    {
      ghost var before := Value();
      var v := Judge(r);
      if v.Reject? { return v.status, true; }
      var g := segments[r.shardIndex];
      if g.open && g.pending != [] && (|g.pending| == BLOCK_RECORDS || g.pending[0].channel != r.channel) {
        var ok := FlushBlock(r.shardIndex);
        if !ok { return IoError, false; }
        W.FlushBlockFrame(codec, before, r.shardIndex);
      }
      status, alive := ReserveRow(r, v);
    }

    // --- Gaps, progress, references ---------------------------------------------------------------

    /** Position of the first gap of the same source and channel, or the end of the table. */
    method FindCell(g: Gap) returns (i: nat)
      ensures i == W.FindCell(gaps, g)
    {
      i := 0;
      while i < |gaps| && !SameCell(gaps[i], g)
        invariant 0 <= i <= |gaps| && i + W.FindCell(gaps[i..], g) == W.FindCell(gaps, g)
      {
        assert gaps[i..][0] == gaps[i] && gaps[i..][1..] == gaps[i + 1..];
        i := i + 1;
      }
    }

    method AppendGap(g: Gap) returns (status: Status)
      requires Valid()
      modifies this`gaps, this`manifest
      ensures Valid() && W.AppendGap(old(Value()), g) == W.Done(status, Value())
    {
      if !active || !ValidGap(g, |sources|, |segments|) { return InvalidArgument; }
      if g.sourceGeneration < sources[g.sourceId - 1].initialGeneration { return InvalidArgument; }
      var i := FindCell(g);
      if i < |gaps| {
        if g.gapEpoch < gaps[i].gapEpoch { return CorruptData; }
        gaps := gaps[i := g];
        return Ok;
      }
      if |gaps| >= maximumGapRecords { return OutOfRange; }
      gaps := gaps + [g];
      manifest := manifest.(gapCount := manifest.gapCount + 1);
      return Ok;
    }

    method UpdateProgress(p: Progress) returns (status: Status)
      requires Valid() && |segments| == config.shardCount <= MAXIMUM_SHARDS
      modifies this`progress
      ensures Valid() && W.UpdateProgress(old(Value()), p) == W.Done(status, Value())
    {
      if || !active || p.producerEpoch != config.producerEpoch || p.shardCount != config.shardCount
         || p.safeMonotonicNs < progress.safeMonotonicNs || p.lossEpoch < progress.lossEpoch
         || p.directoryRevision < progress.directoryRevision { return InvalidArgument; }
      var n := 0;
      while n < |segments|
        invariant 0 <= n <= |segments|
        invariant forall m :: 0 <= m < n ==> W.ProgressAllowed(Value(), p, m)
      {
        if p.shardSequences[n] < progress.shardSequences[n] || p.shardSequences[n] > segments[n].previousSequence {
          assert !W.ProgressAllowed(Value(), p, n);
          return InvalidArgument;
        }
        if depth[n].Open? &&
            (p.shardSequences[n] >= depth[n].firstShardSequence || p.safeMonotonicNs > depth[n].receiveMonotonicNs) {
          assert !W.ProgressAllowed(Value(), p, n);
          return InvalidArgument;
        }
        n := n + 1;
      }
      progress := p;
      return Ok;
    }

    method SetReferencePayload(payload: seq<u8>) returns (status: Status)
      requires Valid()
      modifies this`quotaReached, this`projectedBytes, this`cutReservedBytes, this`referenceReservedBytes,
          this`referencePayload
      ensures Valid() && W.SetReferencePayload(old(Value()), payload) == W.Done(status, Value())
    {
      if !active || |payload| > config.maximumReferenceBytes || |payload| > MAXIMUM_REFERENCE_BYTES {
        return InvalidArgument;
      }
      var growth := if |payload| > referenceReservedBytes then |payload| - referenceReservedBytes else 0;
      if !W.AddWithin(cutReservedBytes, 2 * growth, U64_MAX) ||
          !W.AddWithin(projectedBytes, 2 * growth, writeLimitBytes) {
        quotaReached := true;
        return OutOfRange;
      }
      TakeReference(payload, 2 * growth);
      return Ok;
    }

    method TakeReference(payload: seq<u8>, bytes: nat)
      requires Valid()
      modifies this`projectedBytes, this`cutReservedBytes, this`referenceReservedBytes, this`referencePayload
      ensures Valid()
      ensures Value() == old(Value()).(projectedBytes := old(projectedBytes) + bytes,
              cutReservedBytes := old(cutReservedBytes) + bytes,
                                       referenceReservedBytes := Max(old(referenceReservedBytes), |payload|),
                                           referencePayload := payload)
    {
      projectedBytes := projectedBytes + bytes;
      cutReservedBytes := cutReservedBytes + bytes;
      referenceReservedBytes := Max(referenceReservedBytes, |payload|);
      referencePayload := payload;
    }

    method BeginFinalDrain() returns (status: Status)
      requires Valid()
      modifies this`writeLimitBytes
      ensures Valid() && W.BeginFinalDrain(old(Value())) == W.Done(status, Value())
    {
      if !active { return InvalidArgument; }
      writeLimitBytes := config.maximumBytes;
      return Ok;
    }

    // --- Publication and finalization ---------------------------------------------------------------

    /** Let the visibility binder rewrite the payload in place, within its size. */
    method BindReference(now: nat) returns (status: Status, payload: seq<u8>)
      ensures (status, payload) == W.BindReference(Value(), now)
    {
      if config.binder.None? { return Ok, referencePayload; }
      var previous := if latest.Some? then latest.value.referencePayload else [];
      var bound := config.binder.value(referencePayload, previous, cutGeneration + 1, now);
      if bound.0 != Ok { return bound.0, []; }
      if |bound.1| > config.maximumReferenceBytes || |bound.1| > MAXIMUM_REFERENCE_BYTES { return OutOfRange, []; }
      if |bound.1| != |referencePayload| { return InvalidArgument, []; }
      return Ok, bound.1;
    }

    /** Make a durable cut the latest one; the anchor freezes with the first executable one. */
    method CommitCut(cut: Cut)
      requires Valid()
      modifies this`replayAnchorFrozen, this`cutGeneration, this`latest
      ensures Valid() && Value() == W.CommitCut(old(Value()), cut)
    {
      if cut.manifest.recordCount != 0 && cut.progress.safeMonotonicNs > cut.manifest.replayAnchorMonotonicNs {
        replayAnchorFrozen := true;
      }
      cutGeneration := cutGeneration + 1;
      latest := Some(cut);
    }

    method PublishCut(now: nat) returns (status: Status, alive: bool)
      requires Valid()
      modifies this, publication
      ensures match W.PublishCut(codec, old(Value()), now)
              case Done(s, t) => alive && status == s && Valid() && Value() == t
              case Broken(s) => !alive && status == s
    {
      if !active || cutGeneration == U64_MAX { return InvalidArgument, true; }
      var ok := FlushAll();
      if !ok { return IoError, false; }
      var required := W.CutReservation(|sources|, |gaps|, |blocks|, |referencePayload|);
      if required.None? || required.value > cutReservedBytes { return CorruptData, true; }
      var bound, reference := BindReference(now);
      if bound != Ok { return bound, true; }
      var cut := TakeCut(now, reference);
      CommitCut(cut);
      return Ok, true;
    }

    method TakeCut(now: nat, reference: seq<u8>) returns (cut: Cut)
      ensures cut == W.CutOf(Value(), now, reference)
    {
      cut := Cut(cutGeneration + 1, now, progress, manifest.(projectedBytes := projectedBytes), sources, gaps, blocks,
                 reference, manifest.finalizedReceiveNs > 0);
    }

    /** The manifest's last words. */
    method CloseManifest(reason: StopReason, finalizedReceiveNs: i64)
      requires Valid()
      modifies this`manifest
      ensures Valid()
      ensures Value() == old(Value()).(manifest :=
              W.FinalManifest(codec, layout, old(Value()), reason, finalizedReceiveNs))
    {
      var started := if manifest.firstReceiveNs > 0 then Min(config.startedReceiveNs, manifest.firstReceiveNs)
          else config.startedReceiveNs;
      manifest := manifest.(
        startedReceiveNs := started,
            finalizedReceiveNs := Max(finalizedReceiveNs, Max(config.startedReceiveNs, manifest.lastReceiveNs)),
        stopReason := reason, complete := if reason == Error then 0 else 1, indexCount := |index|,
        sourcesCrc := codec.crc(Pack(layout.sourceBytes, sources)),
            indexCrc := codec.crc(Pack(layout.entryBytes, index)),
        gapsCrc := codec.crc(Pack(layout.gapBytes, gaps)), projectedBytes := projectedBytes);
    }

    method AnyOpenTransaction() returns (found: bool)
      ensures found == exists n :: 0 <= n < |depth| && depth[n].Open?
    {
      var n := 0;
      while n < |depth|
        invariant 0 <= n <= |depth| && forall m :: 0 <= m < n ==> !depth[m].Open?
      {
        if depth[n].Open? { return true; }
        n := n + 1;
      }
      return false;
    }

    method Finalize(reason: StopReason, finalizedReceiveNs: i64, now: nat) returns (status: Status, alive: bool)
      requires Valid()
      modifies this, publication
      ensures match W.Finalize(codec, layout, old(Value()), reason, finalizedReceiveNs, now)
              case Done(s, t) => alive && status == s && Valid() && Value() == t
              case Broken(s) => !alive && status == s
    {
      if !active || finalizedReceiveNs <= 0 { return InvalidArgument, true; }
      var inside := AnyOpenTransaction();
      if inside { return CorruptData, true; }
      var ok := SealAll();
      if !ok { return IoError, false; }
      CloseManifest(reason, finalizedReceiveNs);
      status, alive := PublishCut(now);
      if !alive || status != Ok { return; }
      CloseOut();
    }

    method CloseOut()
      requires Valid()
      modifies this`manifest, this`active
      ensures Valid()
      ensures Value() == old(Value()).(manifest := old(manifest).(projectedBytes := projectedBytes), active := false)
    {
      manifest := manifest.(projectedBytes := projectedBytes);
      active := false;
    }
  }

  lemma {:induction false} FlushFails(c: Codec, s: W.State, n: nat, k: nat)
    requires n <= k <= |s.segments| <= 0x1_0000 && W.FlushAll(c, s, n).None?
    ensures W.FlushAll(c, s, k).None?
    decreases k
  {
    if n < k { FlushFails(c, s, n, k - 1); }
  }

  lemma {:induction false} SealFails(c: Codec, s: W.State, n: nat, k: nat)
    requires n <= k <= |s.segments| <= 0x1_0000 && W.SealAll(c, s, n).None?
    ensures W.SealAll(c, s, k).None?
    decreases k
  {
    if n < k { SealFails(c, s, n, k - 1); }
  }
}
