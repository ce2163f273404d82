/** The sealed reader: everything it checks before it releases a row, and the selection it then
    releases (src/Runtime/src/Corpus/BinaryMarketCorpusReader.cpp and
    BinaryMarketMetadataValidation.hpp). */
module SealedReader {
  import opened Records
  import opened Storage
  import opened Formats
  import opened Index
  import opened Merge
  import opened CutFile
  import opened SegmentFiles
  import opened LiveReading
  import AC = ActiveCursor
  import DT = DepthTransaction
  import SS = SourceState

  /** A sealed corpus directory; segment files by segment number. */
  datatype Archive = Archive(
    manifest: Manifest, sources: seq<Source>, index: seq<Entry>, gaps: seq<Gap>, files: map<nat, SegmentFile>)

  datatype Selection = Everything | Ids(ids: seq<nat>) | Named(matches: Source -> bool)

  datatype Request = Request(
    selection: Selection, beginReceiveNs: int, endReceiveNs: int, channels: set<Channel>, required: set<Channel>,
        strict: bool)

  predicate ValidRequest(q: Request) {
    && q.beginReceiveNs > 0 && q.endReceiveNs > q.beginReceiveNs && q.channels != {} && SourceLifecycle !in q.channels
    && q.required <= q.channels
  }

  // --- Manifest and tables ------------------------------------------------------------------------

  function ManifestCrc(c: Codec, l: Layout, m: Manifest): u32 { c.crc(l.manifestBytes(m.(manifestCrc := 0))) }

  predicate ValidSealedManifest(c: Codec, l: Layout, m: Manifest) {
    var rows := m.recordCount != 0;
    && m.magic == MANIFEST_MAGIC && m.headerBytes == MANIFEST_BYTES && m.producerEpoch != 0 && m.startedReceiveNs > 0
    && m.replayAnchorReceiveNs > 0 && m.replayAnchorMonotonicNs != 0
    && m.startedReceiveNs <= m.replayAnchorReceiveNs <= m.finalizedReceiveNs
    && m.startedReceiveNs <= m.finalizedReceiveNs
    && m.maximumBytes != 0 && m.segmentTargetBytes >= SEGMENT_HEADER_BYTES + RECORD_BYTES + SEGMENT_FOOTER_BYTES
    && m.projectedBytes != 0 && m.projectedBytes <= m.maximumBytes
    && 0 < m.sourceCount <= MAXIMUM_SOURCES && 0 < m.shardCount <= MAXIMUM_SHARDS
    && m.complete == 1 && m.stopReason != Error
    && m.gapCount <= m.sourceCount * STORED_CHANNELS && m.indexCount <= m.maximumBytes / INDEX_ENTRY_BYTES
    && m.segmentCount <= m.indexCount && rows == (m.segmentCount != 0) && rows == (m.indexCount != 0)
    && (if rows then 0 < m.firstReceiveNs <= m.lastReceiveNs else m.firstReceiveNs == 0 && m.lastReceiveNs == 0)
    && m.manifestCrc == ManifestCrc(c, l, m)
  }

  /** A table file whose header names this many records with this checksum. */
  predicate TableHolds<T>(
      c: Codec, bytesOf: T -> seq<u8>, size: nat, values: seq<T>, crc: u32, maximum: nat, expected: nat) {
    |values| == expected && c.crc(Pack(bytesOf, values)) == crc && |values| * size <= maximum
  }

  predicate CatalogHolds(c: Codec, l: Layout, a: Archive) {
    && ValidSealedManifest(c, l, a.manifest)
    && TableHolds(c, l.sourceBytes, SOURCE_BYTES, a.sources, a.manifest.sourcesCrc, a.manifest.maximumBytes,
        a.manifest.sourceCount)
    && SourcesHold(a.sources)
  }

  predicate TablesRead(c: Codec, l: Layout, a: Archive) {
    && TableHolds(c, l.entryBytes, INDEX_ENTRY_BYTES, a.index, a.manifest.indexCrc, a.manifest.maximumBytes,
        a.manifest.indexCount)
    && TableHolds(c, l.gapBytes, GAP_BYTES, a.gaps, a.manifest.gapsCrc, a.manifest.maximumBytes, a.manifest.gapCount)
  }

  // --- Which sources --------------------------------------------------------------------------------

  predicate ValidIds(ids: seq<nat>, sources: nat) {
    && |ids| <= sources && (forall i :: 0 <= i < |ids| ==> 0 < ids[i] <= sources)
    && forall i, j :: 0 <= i < j < |ids| ==> ids[i] != ids[j]
  }

  function Matching(sources: seq<Source>, matches: Source -> bool): (ids: seq<nat>)
    ensures forall i :: 0 <= i < |ids| ==> 0 < ids[i] <= |sources|
    decreases |sources|
  {
    if sources == [] then []
    else
      var m := |sources| - 1;
      Matching(sources[..m], matches) + (if matches(sources[m]) then [m + 1] else [])
  }

  datatype Choice = Chosen(ids: seq<nat>, all: bool) | Unchosen(status: Status)

  function Choose(sources: seq<Source>, selection: Selection): Choice {
    match selection
    case Everything => Chosen([], true)
    case Ids(ids) => if ids == [] then Chosen([], true) else if ValidIds(ids, |sources|) then Chosen(ids, false)
        else Unchosen(InvalidArgument)
    case Named(matches) =>
      var ids := Matching(sources, matches);
      if |ids| > 1 then Unchosen(InvalidArgument) else if ids == [] then Unchosen(OutOfRange) else Chosen(ids, false)
  }

  predicate Includes(choice: Choice, id: nat)
    requires choice.Chosen?
  {
    choice.all || id in choice.ids
  }

  // --- The index on its own ---------------------------------------------------------------------------

  /** The clauses an index entry must meet by itself. */
  predicate EntryHolds(e: Entry, m: Manifest, sources: nat) {
    && 0 < e.segmentNumber <= m.segmentCount && 0 < e.key.sourceId <= sources && e.key.sourceGeneration != 0
    && e.recordCount != 0 && e.firstEventSequence != 0 && e.lastEventSequence != 0
    && 0 < e.firstReceiveNs <= e.lastReceiveNs && e.shardIndex < m.shardCount
    && e.hasGap == (e.gapCount != 0) && e.compatibility != Unavailable
    && e.hasRecordedOnly == (e.compatibility == RecordedOnly)
  }

  /** An entry's generation is not older than its source in the catalog. */
  predicate NotBefore(e: Entry, sources: seq<Source>)
    requires 0 < e.key.sourceId <= |sources|
  {
    e.key.sourceGeneration >= sources[e.key.sourceId - 1].initialGeneration
  }

  predicate EntriesAgree(a: Entry, b: Entry) {
    a.segmentNumber == b.segmentNumber ==> a.shardIndex == b.shardIndex && a.key != b.key
  }

  predicate EntriesConsistent(index: seq<Entry>) {
    forall i, j :: 0 <= i < j < |index| ==> EntriesAgree(index[i], index[j])
  }

  function Segments(index: seq<Entry>): set<nat> { set i | 0 <= i < |index| :: index[i].segmentNumber }

  predicate IndexHolds(a: Archive) {
    && (forall i :: 0 <= i < |a.index| ==>
         EntryHolds(a.index[i], a.manifest, |a.sources|) && NotBefore(a.index[i], a.sources))
    && EntriesConsistent(a.index)
    && SumEntries(a.index) <= U64_MAX && SumEntries(a.index) == a.manifest.recordCount
    && |Segments(a.index)| == a.manifest.segmentCount
  }

  /** The shard the index places segment k in. */
  function ShardOf(index: seq<Entry>, k: nat): Option<nat>
    decreases |index|
  {
    if index == [] then None
    else if index[0].segmentNumber == k then Some(index[0].shardIndex)
    else ShardOf(index[1..], k)
  }

  // --- Gaps ---------------------------------------------------------------------------------------

  predicate GapHolds(g: Gap, a: Archive) {
    && ValidGap(g, |a.sources|, a.manifest.shardCount)
    && g.sourceGeneration >= a.sources[g.sourceId - 1].initialGeneration
  }

  predicate Overlaps(first: int, last: int, begin: int, end: int) {
    first != 0 && last >= first && last >= begin && first < end
  }

  /** A loss that touches the requested interval. */
  predicate Hurts(g: Gap, q: Request, choice: Choice)
    requires choice.Chosen?
  {
    || g.channel == SourceLifecycle
    || (&& Includes(choice, g.sourceId) && g.channel in q.channels
        && (|| (g.minimumDroppedReceiveNs == 0 && g.maximumDroppedReceiveNs == 0)
            || Overlaps(g.minimumDroppedReceiveNs, g.maximumDroppedReceiveNs, q.beginReceiveNs, q.endReceiveNs)))
  }

  // --- Segments against the index ---------------------------------------------------------------------

  function FindEntry(index: seq<Entry>, k: nat, key: Key): Option<Entry>
    decreases |index|
  {
    if index == [] then None
    else if index[0].segmentNumber == k && index[0].key == key then Some(index[0])
    else FindEntry(index[1..], k, key)
  }

  /** The index says of segment k exactly what its rows say. */
  predicate IndexMatches(index: seq<Entry>, k: nat, observed: seq<Entry>) {
    && |EntriesOf(index, k)| == |observed|
    && forall i :: 0 <= i < |observed| ==> FindEntry(index, k, observed[i].key) == Some(observed[i])
  }

  /** The rows of segment k if its file decodes, continues its shard and agrees with the index. */
  function CheckSegment(c: Codec, a: Archive, k: nat, before: seq<Record>): Option<seq<Record>> {
    var shard := ShardOf(a.index, k);
    if shard.None? || k !in a.files || !HeaderOpens(a.files[k], k, shard.value, a.manifest.producerEpoch) then None
    else
      var rows := ReadSegment(c, a.files[k], |a.sources|);
      if rows.None? || !FollowsShard(before, rows.value) ||
          !IndexMatches(a.index, k, Recompute(k, shard.value, rows.value)) then None
      else rows
  }

  /** Rows that continue a shard across a segment boundary; within a segment the decoder has checked. */
  predicate FollowsShard(before: seq<Record>, rows: seq<Record>) {
    before == [] || rows == [] ||
    (&& rows[0].shardSequence > before[|before| - 1].shardSequence
     && rows[0].receiveMonotonicNs >= before[|before| - 1].receiveMonotonicNs)
  }

  function SegmentBytes(f: SegmentFile): nat { SEGMENT_HEADER_BYTES + f.header.storedBytes + SEGMENT_FOOTER_BYTES }

  function MetadataBytes(a: Archive): nat {
    MANIFEST_BYTES + 3 * TABLE_HEADER_BYTES + |a.sources| * SOURCE_BYTES + |a.index| * INDEX_ENTRY_BYTES +
        |a.gaps| * GAP_BYTES
  }

  /** The shard streams after the first k segments, with the physical bytes and rows they account for. */
  datatype Scan = Scan(streams: seq<seq<Record>>, physical: nat, records: nat) | ScanFailed

  /** Segment k behind a scan of those before it. */
  function ScanOne(c: Codec, a: Archive, k: nat, before: Scan): (s: Scan)
    ensures s.Scan? ==> before.Scan? && |s.streams| == |before.streams|
  {
    match before
    case ScanFailed => ScanFailed
    case Scan(streams, physical, records) =>
      var shard := ShardOf(a.index, k);
      if shard.None? || shard.value >= |streams| then ScanFailed
      else
        var rows := CheckSegment(c, a, k, streams[shard.value]);
        if rows.None? || k !in a.files || physical + SegmentBytes(a.files[k]) > a.manifest.projectedBytes then
          ScanFailed
        else Scan(streams[shard.value := streams[shard.value] + rows.value], physical + SegmentBytes(a.files[k]),
            records + |rows.value|)
  }

  function ScanSegments(c: Codec, a: Archive, k: nat): (s: Scan)
    ensures s.Scan? ==> |s.streams| == a.manifest.shardCount
    decreases k
  {
    if k == 0 then Scan(NoStreams(a.manifest.shardCount), MetadataBytes(a), 0)
    else ScanOne(c, a, k, ScanSegments(c, a, k - 1))
  }

  function NoStreams(n: nat): (e: seq<seq<Record>>)
    ensures |e| == n && forall i :: 0 <= i < n ==> e[i] == []
  {
    seq(n, _ => [])
  }

  // --- The merge ----------------------------------------------------------------------------------

  /** The shard a left-to-right scan of the heads settles on, by the seven-key order. */
  function LeastHead(ss: seq<seq<Record>>, k: nat): (b: Option<nat>)
    requires k <= |ss|
    ensures b.Some? ==> b.value < k && ss[b.value] != []
    decreases k
  {
    if k == 0 then None
    else
      var b := LeastHead(ss, k - 1);
      if ss[k - 1] == [] then b
      else if b.None? || RecordBefore(ss[k - 1][0], ss[b.value][0]) then Some(k - 1)
      else b
  }

  function RecordMerged(ss: seq<seq<Record>>): seq<Record>
    decreases Total(ss)
  {
    var b := LeastHead(ss, |ss|);
    if b.None? then [] else
      PopTotal(ss, b.value);
      [ss[b.value][0]] + RecordMerged(Pop(ss, b.value))
  }

  lemma {:induction false} LeastHeadAgrees(ss: seq<seq<Record>>, k: nat)
    requires k <= |ss| && Sharded(ss)
    ensures LeastHead(ss, k) == Best(ss, k)
    decreases k
  {
    if k > 0 {
      LeastHeadAgrees(ss, k - 1);
      var b := Best(ss, k - 1);
      if ss[k - 1] != [] && b.Some? {
        assert Holds(ss, ss[k - 1][0]) && Holds(ss, ss[b.value][0]);
        OrdersAgree(ss, ss[k - 1][0], ss[b.value][0]);
      }
    }
  }

  /** Both readers merge a corpus to the same sequence. */
  lemma {:induction false} MergesAgree(ss: seq<seq<Record>>)
    requires Sharded(ss)
    ensures RecordMerged(ss) == Merged(ss)
    decreases Total(ss)
  {
    LeastHeadAgrees(ss, |ss|);
    var b := Best(ss, |ss|);
    if b.Some? {
      PopTotal(ss, b.value);
      PopSharded(ss, b.value);
      MergesAgree(Pop(ss, b.value));
    }
  }

  // --- Lifecycle and selection, in merge order ------------------------------------------------------------

  datatype Lanes = Lanes(transactions: seq<DT.Transaction>, states: seq<SS.State>)

  function Idles(n: nat): (e: seq<DT.Transaction>)
    ensures |e| == n && forall i :: 0 <= i < n ==> e[i] == DT.Idle
    decreases n
  {
    if n == 0 then [] else Idles(n - 1) + [DT.Idle]
  }

  function Initials(sources: seq<Source>): (e: seq<SS.State>)
    ensures |e| == |sources| && forall i :: 0 <= i < |sources| ==> e[i] == SS.Initial(sources[i])
    decreases |sources|
  {
    if sources == [] then [] else Initials(sources[..|sources| - 1]) + [SS.Initial(sources[|sources| - 1])]
  }

  function StartLanes(a: Archive): Lanes { Lanes(Idles(a.manifest.shardCount), Initials(a.sources)) }

  /** The merged row against its shard's transaction and its source's lifecycle. */
  function Admit(r: Record, x: Lanes): (y: Option<Lanes>)
    ensures y.Some? ==> |y.value.transactions| == |x.transactions| && |y.value.states| == |x.states|
  {
    if r.shardIndex >= |x.transactions| || !(0 < r.sourceId <= |x.states|) || !ValidRecord(r) then None
    else
      var t := DT.Advance(r, x.transactions[r.shardIndex]);
      var s := SS.Advance(r, x.states[r.sourceId - 1], NativeRebaseSnapshot(r));
      if t.None? || s.None? then None
      else Some(Lanes(x.transactions[r.shardIndex := t.value], x.states[r.sourceId - 1 := s.value]))
  }

  predicate Selects(r: Record, q: Request, choice: Choice)
    requires choice.Chosen?
  {
    && Includes(choice, r.sourceId) && (r.channel == SourceLifecycle || r.channel in q.channels)
    && q.beginReceiveNs <= r.receiveRealtimeNs < q.endReceiveNs
  }

  predicate Incompatible(r: Record, q: Request) { q.strict && !IsSourceHealth(r) && !Compatible(r) }

  /** A selected row that shows market data usable for replay. */
  predicate ShowsMarket(r: Record, states: seq<SS.State>) {
    && !IsSourceHealth(r) && Compatible(r)
    && (r.channel == Depth ==>
          && DepthCoverage !in r.flags && 0 < r.sourceId <= |states| && Depth !in states[r.sourceId - 1].unhealthy
          && r.payload.DepthRow?
          && (r.payload.chunk.state == Healthy || r.payload.chunk.state == Partial || NativeRebaseSnapshot(r)))
  }

  datatype Survey = Survey(lanes: Lanes, present: set<Channel>) | Refusal(status: Status)

  /** The dry run over the whole merge that precedes the first released row. */
  function Preflight(rows: seq<Record>, x: Lanes, q: Request, choice: Choice, present: set<Channel>): Survey
    requires choice.Chosen?
    decreases |rows|
  {
    if rows == [] then Survey(x, present)
    else
      var r := rows[0];
      var y := Admit(r, x);
      if y.None? then Refusal(CorruptData)
      else if !Selects(r, q, choice) then Preflight(rows[1..], y.value, q, choice, present)
      else if GapBoundary in r.flags then Refusal(CorruptData)
      else if Incompatible(r, q) then Refusal(Unimplemented)
      else Preflight(rows[1..], y.value, q, choice, if ShowsMarket(r, y.value.states) then
        present + ChannelBit(r.channel) else present)
  }

  datatype Opening = Open(streams: seq<seq<Record>>, choice: Choice, present: set<Channel>) | NotOpen(status: Status)

  predicate AllIdle(ts: seq<DT.Transaction>) { forall i :: 0 <= i < |ts| ==> ts[i].Idle? }

  /** Everything behind the metadata: segments, totals and the dry run. */
  function OpenRows(c: Codec, a: Archive, q: Request, choice: Choice): Opening
    requires choice.Chosen?
  {
    match ScanSegments(c, a, a.manifest.segmentCount)
    case ScanFailed => NotOpen(CorruptData)
    case Scan(streams, physical, records) =>
      if physical > a.manifest.projectedBytes || records != a.manifest.recordCount then NotOpen(CorruptData)
      else
        match Preflight(RecordMerged(streams), StartLanes(a), q, choice, {})
        case Refusal(status) => NotOpen(status)
        case Survey(lanes, present) =>
          if !AllIdle(lanes.transactions) then NotOpen(CorruptData)
          else if !(q.required <= present) then NotOpen(OutOfRange)
          else Open(streams, choice, present)
  }

  function OpenArchive(c: Codec, l: Layout, a: Archive, q: Request): Opening {
    if !ValidRequest(q) then NotOpen(InvalidArgument)
    else if !CatalogHolds(c, l, a) then NotOpen(CorruptData)
    else if q.beginReceiveNs < a.manifest.startedReceiveNs || q.endReceiveNs > a.manifest.finalizedReceiveNs then
      NotOpen(OutOfRange)
    else
      match Choose(a.sources, q.selection)
      case Unchosen(status) => NotOpen(status)
      case Chosen(ids, all) =>
        var choice := Chosen(ids, all);
        if !TablesRead(c, l, a) || !IndexHolds(a) then NotOpen(CorruptData)
        else if exists i :: 0 <= i < |a.gaps| && !GapHolds(a.gaps[i], a) then NotOpen(CorruptData)
        else if exists i :: 0 <= i < |a.gaps| && Hurts(a.gaps[i], q, choice) then NotOpen(CorruptData)
        else OpenRows(c, a, q, choice)
  }

  // --- Releasing rows -------------------------------------------------------------------------------

  /** An open selection: what is left of each shard and how far transactions and sources have come. */
  datatype Cursor = Cursor(rest: seq<seq<Record>>, lanes: Lanes, failed: bool)

  datatype Release = Released(record: Record) | Exhausted | Broken(status: Status)

  function Start(a: Archive, streams: seq<seq<Record>>): Cursor { Cursor(streams, StartLanes(a), false) }

  /** The next selected row. */
  function Next(cur: Cursor, q: Request, choice: Choice): (Release, Cursor)
    requires choice.Chosen?
    decreases Total(cur.rest)
  {
    if cur.failed then (Broken(InvalidArgument), cur)
    else
      var b := LeastHead(cur.rest, |cur.rest|);
      if b.None? then (Exhausted, cur)
      else
        var r := cur.rest[b.value][0];
        var y := Admit(r, cur.lanes);
        if y.None? then (Broken(CorruptData), cur.(failed := true))
        else
          PopTotal(cur.rest, b.value);
          var on := Cursor(Pop(cur.rest, b.value), y.value, false);
          if !Selects(r, q, choice) then Next(on, q, choice)
          else if GapBoundary in r.flags || Incompatible(r, q) then (Broken(CorruptData), on.(failed := true))
          else (Released(r), on)
  }

  /** All rows the selection releases, or None if releasing fails. */
  function Drain(cur: Cursor, q: Request, choice: Choice): Option<seq<Record>>
    requires choice.Chosen?
    decreases Total(cur.rest)
  {
    var (release, on) := Next(cur, q, choice);
    match release
    case Broken(_) => None
    case Exhausted => Some([])
    case Released(r) =>
      NextConsumes(cur, q, choice);
      var more := Drain(on, q, choice);
      if more.None? then None else Some([r] + more.value)
  }

  lemma {:induction false} NextConsumes(cur: Cursor, q: Request, choice: Choice)
    requires choice.Chosen?
    ensures Total(Next(cur, q, choice).1.rest) <= Total(cur.rest)
    ensures Next(cur, q, choice).0.Released? ==> Total(Next(cur, q, choice).1.rest) < Total(cur.rest)
    decreases Total(cur.rest)
  {
    var b := LeastHead(cur.rest, |cur.rest|);
    if !cur.failed && b.Some? {
      var y := Admit(cur.rest[b.value][0], cur.lanes);
      if y.Some? {
        PopTotal(cur.rest, b.value);
        if !Selects(cur.rest[b.value][0], q, choice) {
          NextConsumes(Cursor(Pop(cur.rest, b.value), y.value, false), q, choice);
        }
      }
    }
  }

  // --- What an archive that opens holds -------------------------------------------------------------------

  lemma {:induction false} ContinuingRows(
      rows: seq<Record>, shard: nat, sources: nat, channel: Channel, sequence: nat, time: nat)
    requires AC.RowsContinue(rows, shard, sources, channel, sequence, time)
    ensures RowsGood(rows, shard, sources)
    ensures rows != [] && sequence != 0 ==> rows[0].shardSequence > sequence
    ensures rows != [] && time != 0 ==> rows[0].receiveMonotonicNs >= time
    decreases |rows|
  {
    if rows != [] {
      var tail := rows[1..];
      ContinuingRows(tail, shard, sources, channel, rows[0].shardSequence, rows[0].receiveMonotonicNs);
      GoodCons(rows[0], tail, shard, sources);
      assert rows == [rows[0]] + tail;
    }
  }

  lemma {:induction false} GoodCons(r: Record, rows: seq<Record>, shard: nat, sources: nat)
    requires RowsGood(rows, shard, sources) && ValidRecord(r) && r.tailZero && r.shardIndex == shard
    requires r.sourceId <= sources
    requires rows != [] ==>
              r.shardSequence < rows[0].shardSequence && r.receiveMonotonicNs <= rows[0].receiveMonotonicNs
    ensures RowsGood([r] + rows, shard, sources)
  {
    var all := [r] + rows;
    forall i, j | 0 <= i < j < |all|
      ensures all[i].shardSequence < all[j].shardSequence && all[i].receiveMonotonicNs <= all[j].receiveMonotonicNs
    {
      if i == 0 { assert all[j] == rows[j - 1]; assert j == 1 || rows[0].shardSequence < rows[j - 1].shardSequence; }
      else { assert all[i] == rows[i - 1] && all[j] == rows[j - 1]; }
    }
  }

  lemma {:induction false} GoodConcat(a: seq<Record>, b: seq<Record>, shard: nat, sources: nat)
    requires RowsGood(a, shard, sources) && RowsGood(b, shard, sources)
    requires a != [] && b != [] ==>
              a[|a| - 1].shardSequence < b[0].shardSequence && a[|a| - 1].receiveMonotonicNs <= b[0].receiveMonotonicNs
    ensures RowsGood(a + b, shard, sources)
  {
    var all := a + b;
    forall i, j | 0 <= i < j < |all|
      ensures all[i].shardSequence < all[j].shardSequence && all[i].receiveMonotonicNs <= all[j].receiveMonotonicNs
    {
      if i < |a| <= j {
        assert i == |a| - 1 || a[i].shardSequence < a[|a| - 1].shardSequence;
        assert j == |a| || b[0].shardSequence < b[j - |a|].shardSequence;
        assert all[i] == a[i] && all[j] == b[j - |a|];
      } else if j < |a| {
        assert all[i] == a[i] && all[j] == a[j];
      } else {
        assert all[i] == b[i - |a|] && all[j] == b[j - |a|];
      }
    }
  }

  /** A segment that decodes holds good rows of its shard. */
  lemma {:induction false} ReadRestGood(c: Codec, f: SegmentFile, sources: nat, at: Progressed)
    requires RowsGood(at.rows, f.header.shardIndex, sources) && ReadRest(c, f, sources, at).Some?
    ensures RowsGood(ReadRest(c, f, sources, at).value, f.header.shardIndex, sources)
    decreases |f.body| - at.bytes
  {
    if at.blocks != f.header.blockCount {
      var next := ReadBlock(c, f, sources, at).value;
      BlockGood(c, f, sources, at);
      ReadRestGood(c, f, sources, next);
    }
  }

  lemma {:induction false} BlockGood(c: Codec, f: SegmentFile, sources: nat, at: Progressed)
    requires RowsGood(at.rows, f.header.shardIndex, sources) && ReadBlock(c, f, sources, at).Some?
    ensures RowsGood(ReadBlock(c, f, sources, at).value.rows, f.header.shardIndex, sources)
  {
    var body := at.bytes + BLOCK_HEADER_BYTES;
    var b := c.headerOf(f.body[at.bytes..body]);
    var rows := c.decode(b.channel, b.recordCount, f.body[body..body + b.encodedBytes]).value;
    ContinuingRows(rows, f.header.shardIndex, sources, b.channel, LastSequence(at.rows), LastTime(at.rows));
    GoodConcat(at.rows, rows, f.header.shardIndex, sources);
  }

  lemma {:induction false} SegmentGood(c: Codec, f: SegmentFile, sources: nat)
    requires ReadSegment(c, f, sources).Some?
    ensures RowsGood(ReadSegment(c, f, sources).value, f.header.shardIndex, sources)
  {
    ReadRestGood(c, f, sources, Progressed([], 0, 0, 0));
  }

  ghost predicate GoodStream(streams: seq<seq<Record>>, sources: nat, n: int)
    requires 0 <= n < |streams|
  {
    RowsGood(streams[n], n, sources)
  }

  lemma {:induction false} ScanGood(c: Codec, a: Archive, k: nat)
    requires ScanSegments(c, a, k).Scan?
    ensures var streams := ScanSegments(c, a, k).streams;
            forall n {:trigger GoodStream(streams, |a.sources|, n)} :: 0 <= n < |streams| ==>
                GoodStream(streams, |a.sources|, n)
    decreases k
  {
    if k > 0 {
      ScanGood(c, a, k - 1);
      var before := ScanSegments(c, a, k - 1).streams;
      var shard := ShardOf(a.index, k).value;
      var rows := CheckSegment(c, a, k, before[shard]).value;
      SegmentGood(c, a.files[k], |a.sources|);
      assert GoodStream(before, |a.sources|, shard);
      GoodConcat(before[shard], rows, shard, |a.sources|);
      var streams := ScanSegments(c, a, k).streams;
      forall n | 0 <= n < |streams|
        ensures GoodStream(streams, |a.sources|, n)
      {
        assert GoodStream(before, |a.sources|, n);
      }
    }
  }

  lemma {:induction false} ScanSharded(c: Codec, a: Archive, k: nat)
    requires ScanSegments(c, a, k).Scan?
    ensures Sharded(ScanSegments(c, a, k).streams)
  {
    ScanGood(c, a, k);
    var streams := ScanSegments(c, a, k).streams;
    forall n | 0 <= n < |streams|
      ensures DT.Sorted(streams[n]) && forall i :: 0 <= i < |streams[n]| ==> streams[n][i].shardIndex == n
    {
      assert GoodStream(streams, |a.sources|, n);
    }
  }

  // --- Sealed cursor correctness ------------------------------------------------------------------------

  /** The selected rows, in order. */
  function Picked(rows: seq<Record>, q: Request, choice: Choice): seq<Record>
    requires choice.Chosen?
    decreases |rows|
  {
    if rows == [] then []
    else if Selects(rows[0], q, choice) then [rows[0]] + Picked(rows[1..], q, choice)
    else Picked(rows[1..], q, choice)
  }

  lemma {:induction false} MergedStep(ss: seq<seq<Record>>)
    ensures LeastHead(ss, |ss|).None? ==> RecordMerged(ss) == []
    ensures LeastHead(ss, |ss|).Some? ==>
              var b := LeastHead(ss, |ss|).value;
              RecordMerged(ss) != [] && RecordMerged(ss)[0] == ss[b][0] &&
                  RecordMerged(ss)[1..] == RecordMerged(Pop(ss, b))
  {
  }

  /** From any point the dry run has passed, releasing the rest succeeds and yields exactly what is
      selected of the merge. */
  lemma {:induction false} DrainPicks(cur: Cursor, q: Request, choice: Choice, present: set<Channel>)
    requires choice.Chosen? && !cur.failed && Preflight(RecordMerged(cur.rest), cur.lanes, q, choice, present).Survey?
    ensures Drain(cur, q, choice) == Some(Picked(RecordMerged(cur.rest), q, choice))
    decreases Total(cur.rest)
  {
    MergedStep(cur.rest);
    var b := LeastHead(cur.rest, |cur.rest|);
    if b.Some? {
      var r := cur.rest[b.value][0];
      var y := Admit(r, cur.lanes);
      PopTotal(cur.rest, b.value);
      var on := Cursor(Pop(cur.rest, b.value), y.value, false);
      var shown := if Selects(r, q, choice) && ShowsMarket(r, y.value.states) then present + ChannelBit(r.channel)
          else present;
      DrainPicks(on, q, choice, shown);
      if Selects(r, q, choice) { DrainReleases(cur, on, r, q, choice); } else { DrainSkips(cur, on, q, choice); }
    }
  }

  lemma {:induction false} DrainReleases(cur: Cursor, on: Cursor, r: Record, q: Request, choice: Choice)
    requires choice.Chosen? && Next(cur, q, choice) == (Released(r), on) && Drain(on, q, choice).Some?
    ensures Drain(cur, q, choice) == Some([r] + Drain(on, q, choice).value)
  {
    NextConsumes(cur, q, choice);
  }

  lemma {:induction false} DrainSkips(cur: Cursor, on: Cursor, q: Request, choice: Choice)
    requires choice.Chosen? && Next(cur, q, choice) == Next(on, q, choice)
    ensures Drain(cur, q, choice) == Drain(on, q, choice)
  {
  }

  /** Sealed cursor correctness: once an archive has opened, whatever wrote it, draining the cursor
      over the same files never fails, ends, and returns exactly the selected rows of the shard merge
      in order; that merge is the one the live cursor follows. */
  lemma {:induction false} SealedCursorCorrect(c: Codec, l: Layout, a: Archive, q: Request)
    requires OpenArchive(c, l, a, q).Open?
    ensures var o := OpenArchive(c, l, a, q);
            && o.choice.Chosen? && Sharded(o.streams)
            && Drain(Start(a, o.streams), q, o.choice) == Some(Picked(Merged(o.streams), q, o.choice))
  {
    var o := OpenArchive(c, l, a, q);
    ScanSharded(c, a, a.manifest.segmentCount);
    MergesAgree(o.streams);
    DrainPicks(Start(a, o.streams), q, o.choice, {});
  }
}
