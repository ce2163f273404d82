/** The cut file: how a cut is laid out and sealed with checksums, what a reader checks before it
    believes one, and why it believes exactly the cuts that are sound
    (src/Runtime/src/Corpus/CorpusCut.cpp, writeCorpusCut and decodeCorpusCut). */
module CutFile {
  import opened Records
  import opened Storage
  import opened Formats

  const CUT_MAGIC: nat := 0x4355544852434f52

  // --- Field widths -------------------------------------------------------------------------------

  predicate FitsManifest(m: Manifest) {
    && m.magic <= U32_MAX && m.headerBytes <= 0xFFFF && m.producerEpoch <= U64_MAX
    && -I64_MAX <= m.startedReceiveNs <= I64_MAX && -I64_MAX <= m.replayAnchorReceiveNs <= I64_MAX
    && m.replayAnchorMonotonicNs <= U64_MAX && -I64_MAX <= m.finalizedReceiveNs <= I64_MAX
    && -I64_MAX <= m.firstReceiveNs <= I64_MAX && -I64_MAX <= m.lastReceiveNs <= I64_MAX
    && m.maximumBytes <= U64_MAX && m.segmentTargetBytes <= U64_MAX && 0 <= m.projectedBytes <= U64_MAX
    && m.recordCount <= U64_MAX && m.gapCount <= U64_MAX && m.sourceCount <= U32_MAX && m.segmentCount <= U32_MAX
    && m.indexCount <= U32_MAX && m.shardCount <= 0xFFFF && m.complete <= 0xFF
  }

  predicate FitsRange(b: BlockRange) { b.offset <= U64_MAX && b.segmentNumber <= U32_MAX && FitsHeader(b.header) }

  predicate FitsCutHeader(h: CutHeader) {
    && h.magic <= U64_MAX && h.bytes <= U64_MAX && h.generation <= U64_MAX && h.committedMonotonicNs <= U64_MAX
    && FitsManifest(h.manifest) && h.sources <= U64_MAX && h.gaps <= U64_MAX && h.blocks <= U64_MAX
    && h.referenceBytes <= U64_MAX && h.finalized <= 0xFF && h.reserved <= 0xFF
  }

  ghost predicate SourceSurvives(l: Layout, s: Source) {
    |l.sourceBytes(s)| == SOURCE_BYTES && l.sourceOf(l.sourceBytes(s)) == s
  }

  ghost predicate GapSurvives(l: Layout, g: Gap) {
    |l.gapBytes(g)| == GAP_BYTES && l.gapOf(l.gapBytes(g)) == g
  }

  ghost predicate RangeSurvives(l: Layout, b: BlockRange) {
    FitsRange(b) ==> |l.rangeBytes(b)| == RANGE_BYTES && l.rangeOf(l.rangeBytes(b)) == b
  }

  ghost predicate CutHeaderSurvives(l: Layout, h: CutHeader) {
    FitsCutHeader(h) ==> |l.headerBytes(h)| == CUT_HEADER_BYTES && l.headerOf(l.headerBytes(h)) == h
  }

  /** Every value within its widths survives its bytes. */
  ghost predicate LawfulLayout(l: Layout) {
    && (forall s: Source {:trigger SourceSurvives(l, s)} :: SourceSurvives(l, s))
    && (forall g: Gap {:trigger GapSurvives(l, g)} :: GapSurvives(l, g))
    && (forall b: BlockRange {:trigger RangeSurvives(l, b)} :: RangeSurvives(l, b))
    && (forall h: CutHeader {:trigger CutHeaderSurvives(l, h)} :: CutHeaderSurvives(l, h))
  }

  // --- Writing ------------------------------------------------------------------------------------

  function PayloadOf(l: Layout, cut: Cut): seq<u8> {
    Pack(l.sourceBytes, cut.sources) + Pack(l.gapBytes, cut.gaps) + Pack(l.rangeBytes, cut.blocks) +
        cut.referencePayload
  }

  function HeaderCrc(c: Codec, l: Layout, h: CutHeader): u32 { c.crc(l.headerBytes(h.(crc := 0, headerCrc := 0))) }

  /** The header without its two checksums over the file. */
  function DraftHeader(c: Codec, l: Layout, cut: Cut): CutHeader {
    CutHeader(CUT_MAGIC, CUT_HEADER_BYTES + |PayloadOf(l, cut)|, cut.generation, cut.committedMonotonicNs, cut.progress,
        cut.manifest,
              |cut.sources|, |cut.gaps|, |cut.blocks|, |cut.referencePayload|, 0, 0,
              c.crc(Pack(l.sourceBytes, cut.sources)), if cut.finalized then 1 else 0, 0)
  }

  function CheckedHeader(c: Codec, l: Layout, cut: Cut): CutHeader {
    var draft := DraftHeader(c, l, cut);
    draft.(headerCrc := HeaderCrc(c, l, draft))
  }

  function SealedHeader(c: Codec, l: Layout, cut: Cut): CutHeader {
    var h := CheckedHeader(c, l, cut);
    h.(crc := c.crc(l.headerBytes(h) + PayloadOf(l, cut)))
  }

  function FileOf(c: Codec, l: Layout, cut: Cut): seq<u8> { l.headerBytes(SealedHeader(c, l, cut)) + PayloadOf(l, cut) }

  // --- Reading ------------------------------------------------------------------------------------

  /** What a section of `count` items leaves of the room, if it fits. */
  function Take(room: Option<nat>, count: nat, size: nat): Option<nat>
    requires size > 0
  {
    if room.None? || count > room.value / size then None
    else
      Product(count, room.value, size);
      Some(room.value - count * size)
  }

  lemma {:induction false} Product(count: nat, room: nat, size: nat)
    requires size > 0
    ensures count <= room / size <==> count * size <= room
  {
    var q := room / size;
    assert room == q * size + room % size;
    if count <= q { assert count * size <= q * size; } else { assert count * size >= (q + 1) * size; }
  }

  /** The four sections fill the file to its last byte. */
  predicate SectionsFill(h: CutHeader, bytes: nat)
    requires bytes >= CUT_HEADER_BYTES
  {
    Take(Take(Take(Take(Some(bytes - CUT_HEADER_BYTES), h.sources, SOURCE_BYTES), h.gaps, GAP_BYTES), h.blocks,
        RANGE_BYTES),
         h.referenceBytes, 1) == Some(0)
  }

  /** ... if and only if their sizes and the header's add up. */
  lemma {:induction false} SectionsAddUp(h: CutHeader, bytes: nat)
    requires bytes >= CUT_HEADER_BYTES
    ensures SectionsFill(h, bytes) <==>
              bytes == CUT_HEADER_BYTES + h.sources * SOURCE_BYTES + h.gaps * GAP_BYTES + h.blocks * RANGE_BYTES +
                  h.referenceBytes
  {
    var a := bytes - CUT_HEADER_BYTES;
    Product(h.sources, a, SOURCE_BYTES);
    if h.sources * SOURCE_BYTES <= a {
      var b := a - h.sources * SOURCE_BYTES;
      Product(h.gaps, b, GAP_BYTES);
      if h.gaps * GAP_BYTES <= b {
        var d := b - h.gaps * GAP_BYTES;
        Product(h.blocks, d, RANGE_BYTES);
        if h.blocks * RANGE_BYTES <= d { Product(h.referenceBytes, d - h.blocks * RANGE_BYTES, 1); }
      }
    }
  }

  predicate ValidCutHeader(c: Codec, l: Layout, h: CutHeader, bytes: nat) {
    var m := h.manifest;
    && h.magic == CUT_MAGIC && h.headerCrc == HeaderCrc(c, l, h)
    && h.bytes == bytes && CUT_HEADER_BYTES <= bytes && m.maximumBytes != 0 && bytes <= m.maximumBytes
    && h.generation != 0 && h.committedMonotonicNs != 0 && h.sources != 0 && h.sources <= MAXIMUM_SOURCES
    && h.sources == m.sourceCount && h.gaps <= h.sources * STORED_CHANNELS
    && h.blocks <= m.maximumBytes / RANGE_BYTES && h.referenceBytes <= MAXIMUM_REFERENCE_BYTES
    && h.finalized <= 1 && (h.finalized != 0) == (m.finalizedReceiveNs > 0) && h.reserved == 0
    && m.magic == MANIFEST_MAGIC && m.headerBytes == MANIFEST_BYTES && m.producerEpoch != 0
    && m.startedReceiveNs > 0 && m.replayAnchorMonotonicNs != 0
    && h.progress.producerEpoch == m.producerEpoch && h.progress.shardCount != 0
    && h.progress.shardCount == m.shardCount && h.progress.shardCount <= MAXIMUM_SHARDS
    && h.gaps == m.gapCount
    && SectionsFill(h, bytes)
  }

  function Values<T>(of: seq<u8> -> T, size: nat, bytes: seq<u8>, count: nat): (vs: seq<T>)
    requires count * size <= |bytes|
    ensures |vs| == count
    decreases count
  {
    if count == 0 then []
    else
      assert count * size == size + (count - 1) * size;
      [of(bytes[..size])] + Values(of, size, bytes[size..], count - 1)
  }

  /** A table read back, and the bytes behind it. */
  function Unpack<T>(of: seq<u8> -> T, size: nat, bytes: seq<u8>, count: nat): (r: Option<(seq<T>, seq<u8>)>)
    requires size > 0
  {
    if count > |bytes| / size then None
    else
      Product(count, |bytes|, size);
      Some((Values(of, size, bytes, count), bytes[count * size..]))
  }

  datatype Tables = Tables(sources: seq<Source>, gaps: seq<Gap>, blocks: seq<BlockRange>, reference: seq<u8>)

  function Byte(b: seq<u8>): u8 { if b == [] then 0 else b[0] }

  function UnpackTables(l: Layout, h: CutHeader, payload: seq<u8>): Option<Tables> {
    var a := Unpack(l.sourceOf, SOURCE_BYTES, payload, h.sources);
    if a.None? then None else
    var b := Unpack(l.gapOf, GAP_BYTES, a.value.1, h.gaps);
    if b.None? then None else
    var d := Unpack(l.rangeOf, RANGE_BYTES, b.value.1, h.blocks);
    if d.None? then None else
    var e := Unpack(Byte, 1, d.value.1, h.referenceBytes);
    if e.None? || e.value.1 != [] then None else Some(Tables(a.value.0, b.value.0, d.value.0, e.value.0))
  }

  /** A block reference that a reader may follow. */
  predicate ValidBlock(c: Codec, b: BlockRange, maximum: nat, shards: nat) {
    && b.segmentNumber != 0 && b.shardIndex < shards && SEGMENT_HEADER_BYTES <= b.offset <= maximum
    && b.firstMonotonicNs != 0 && b.firstMonotonicNs <= b.lastMonotonicNs
    && b.header.blockNumber != 0 && 0 < b.header.recordCount <= BLOCK_RECORDS
    && b.header.rawBytes == b.header.recordCount * RECORD_BYTES
    && 0 < b.header.encodedBytes <= c.bound(b.header.channel, b.header.recordCount)
    && b.header.firstShardSequence != 0 && b.header.firstShardSequence <= b.header.lastShardSequence
    && b.header == Sealed(c, b.header)
  }

  predicate SourcesHold(sources: seq<Source>) { forall n :: 0 <= n < |sources| ==> ValidSource(sources[n], n) }

  predicate GapsHold(gs: seq<Gap>, sources: nat, shards: nat) {
    (forall i :: 0 <= i < |gs| ==> ValidGap(gs[i], sources, shards)) && UniqueCells(gs)
  }

  predicate BlocksHold(c: Codec, bs: seq<BlockRange>, m: Manifest, shards: nat) {
    && (forall i :: 0 <= i < |bs| ==> ValidBlock(c, bs[i], m.maximumBytes, shards))
    && SumRecords(bs) <= U64_MAX && SumRecords(bs) == m.recordCount
  }

  predicate TablesHold(c: Codec, t: Tables, h: CutHeader) {
    && SourcesHold(t.sources) && GapsHold(t.gaps, |t.sources|, h.progress.shardCount)
    && BlocksHold(c, t.blocks, h.manifest, h.progress.shardCount) && |t.gaps| == h.manifest.gapCount
  }

  function CutFrom(h: CutHeader, t: Tables): Cut {
    Cut(h.generation, h.committedMonotonicNs, h.progress, h.manifest, t.sources, t.gaps, t.blocks, t.reference,
        h.finalized != 0)
  }

  predicate ChecksumHolds(c: Codec, l: Layout, h: CutHeader, bytes: seq<u8>)
    requires CUT_HEADER_BYTES <= |bytes|
  {
    c.crc(l.headerBytes(h.(crc := 0)) + bytes[CUT_HEADER_BYTES..]) == h.crc
  }

  predicate SourceChecksumHolds(c: Codec, h: CutHeader, payload: seq<u8>) {
    h.sources * SOURCE_BYTES <= |payload| && c.crc(payload[..h.sources * SOURCE_BYTES]) == h.sourcesCrc
  }

  /** The cut a file holds, if it is one. */
  function DecodeCut(c: Codec, l: Layout, bytes: seq<u8>): Option<Cut> {
    if |bytes| < CUT_HEADER_BYTES then None else
    var h := l.headerOf(bytes[..CUT_HEADER_BYTES]);
    if !ValidCutHeader(c, l, h, |bytes|) || !ChecksumHolds(c, l, h, bytes) then None else
    var payload := bytes[CUT_HEADER_BYTES..];
    var t := UnpackTables(l, h, payload);
    if t.None? || !SourceChecksumHolds(c, h, payload) || !TablesHold(c, t.value, h) then None else
    Some(CutFrom(h, t.value))
  }

  // --- The reader's loops ---------------------------------------------------------------------------

  /** A cell of the table has been seen exactly when a gap before position n has it. */
  ghost predicate SeenSoFar(seen: seq<bool>, gs: seq<Gap>, n: nat)
    requires n <= |gs|
  {
    forall x :: 0 <= x < |seen| ==> (seen[x] <==> exists i :: 0 <= i < n && CellOf(gs[i]) == x)
  }

  lemma {:induction false} SeenMore(seen: seq<bool>, gs: seq<Gap>, n: nat)
    requires n < |gs| && SeenSoFar(seen, gs, n) && 0 <= CellOf(gs[n]) < |seen|
    ensures SeenSoFar(seen[CellOf(gs[n]) := true], gs, n + 1)
  {
    var more := seen[CellOf(gs[n]) := true];
    forall x | 0 <= x < |more|
      ensures more[x] <==> exists i :: 0 <= i < n + 1 && CellOf(gs[i]) == x
    {
      if x == CellOf(gs[n]) {
        assert 0 <= n < n + 1 && CellOf(gs[n]) == x;
      } else if exists i :: 0 <= i < n && CellOf(gs[i]) == x {
        var i :| 0 <= i < n && CellOf(gs[i]) == x;
        assert 0 <= i < n + 1;
      }
    }
  }

  lemma {:induction false} DuplicateCell(gs: seq<Gap>, n: nat, i: nat)
    requires i < n < |gs| && CellOf(gs[i]) == CellOf(gs[n])
    ensures !UniqueCells(gs)
  {
    CellInjective(gs[i], gs[n]);
    assert SameCell(gs[i], gs[n]);
  }

  lemma {:induction false} DistinctOneMore(seen: seq<bool>, gs: seq<Gap>, n: nat)
    requires n < |gs| && SeenSoFar(seen, gs, n) && UniqueCells(gs[..n]) && 0 <= CellOf(gs[n]) < |seen|
    requires !seen[CellOf(gs[n])]
    ensures UniqueCells(gs[..n + 1])
  {
    var more := gs[..n + 1];
    forall i, j | 0 <= i < j < |more|
      ensures !SameCell(more[i], more[j])
    {
      if j < n { assert !SameCell(gs[..n][i], gs[..n][j]); } else { assert CellOf(gs[i]) != CellOf(gs[n]); }
    }
  }

  method CheckSources(sources: seq<Source>) returns (ok: bool)
    ensures ok == SourcesHold(sources)
  {
    for n := 0 to |sources|
      invariant forall i :: 0 <= i < n ==> ValidSource(sources[i], i)
    {
      if !ValidSource(sources[n], n) { return false; }
    }
    return true;
  }

  method CheckGaps(gs: seq<Gap>, sources: nat, shards: nat) returns (ok: bool)
    ensures ok == GapsHold(gs, sources, shards)
  {
    var seen := new bool[sources * STORED_CHANNELS](_ => false);
    var n := 0;
    while n < |gs|
      invariant 0 <= n <= |gs|
      invariant SeenSoFar(seen[..], gs, n) && UniqueCells(gs[..n])
      invariant forall i :: 0 <= i < n ==> ValidGap(gs[i], sources, shards)
    {
      if !ValidGap(gs[n], sources, shards) { return false; }
      var x := CellOf(gs[n]);
      if seen[x] {
        ghost var i :| 0 <= i < n && CellOf(gs[i]) == x;
        DuplicateCell(gs, n, i);
        return false;
      }
      DistinctOneMore(seen[..], gs, n);
      SeenMore(seen[..], gs, n);
      seen[x] := true;
      n := n + 1;
    }
    assert gs[..|gs|] == gs;
    return true;
  }

  lemma {:induction false} SumGrows(bs: seq<BlockRange>, n: nat)
    requires n <= |bs|
    ensures SumRecords(bs[..n]) <= SumRecords(bs)
    decreases |bs|
  {
    if n == |bs| {
      assert bs[..n] == bs;
    } else {
      SumGrows(bs[..|bs| - 1], n);
      assert bs[..|bs| - 1][..n] == bs[..n];
    }
  }

  method CheckBlocks(c: Codec, bs: seq<BlockRange>, m: Manifest, shards: nat) returns (ok: bool)
    ensures ok == BlocksHold(c, bs, m, shards)
  {
    var records := 0;
    var n := 0;
    while n < |bs|
      invariant 0 <= n <= |bs| && records == SumRecords(bs[..n]) <= U64_MAX
      invariant forall i :: 0 <= i < n ==> ValidBlock(c, bs[i], m.maximumBytes, shards)
    {
      assert bs[..n + 1][..n] == bs[..n];
      if !ValidBlock(c, bs[n], m.maximumBytes, shards) { return false; }
      if records > U64_MAX - bs[n].header.recordCount {
        SumGrows(bs, n + 1);
        return false;
      }
      records := records + bs[n].header.recordCount;
      n := n + 1;
    }
    assert bs[..n] == bs;
    return records == m.recordCount;
  }

  method Decode(c: Codec, l: Layout, bytes: seq<u8>) returns (status: Status, cut: Option<Cut>)
    ensures cut == DecodeCut(c, l, bytes) && status == if cut.Some? then Ok else CorruptData
  {
    if |bytes| < CUT_HEADER_BYTES { return CorruptData, None; }
    var h := l.headerOf(bytes[..CUT_HEADER_BYTES]);
    if !ValidCutHeader(c, l, h, |bytes|) || !ChecksumHolds(c, l, h, bytes) { return CorruptData, None; }
    var payload := bytes[CUT_HEADER_BYTES..];
    var t := UnpackTables(l, h, payload);
    if t.None? || !SourceChecksumHolds(c, h, payload) { return CorruptData, None; }
    var tables := t.value;
    var ok := CheckSources(tables.sources);
    if !ok { return CorruptData, None; }
    ok := CheckGaps(tables.gaps, |tables.sources|, h.progress.shardCount);
    if !ok { return CorruptData, None; }
    ok := CheckBlocks(c, tables.blocks, h.manifest, h.progress.shardCount);
    if !ok || |tables.gaps| != h.manifest.gapCount { return CorruptData, None; }
    return Ok, Some(CutFrom(h, tables));
  }

  // --- Round trip ---------------------------------------------------------------------------------

  ghost predicate Survives<T>(bytesOf: T -> seq<u8>, of: seq<u8> -> T, size: nat, v: T) {
    |bytesOf(v)| == size && of(bytesOf(v)) == v
  }

  lemma {:induction false} ValuesOfPack<T>(
      bytesOf: T -> seq<u8>, of: seq<u8> -> T, size: nat, vs: seq<T>, rest: seq<u8>)
    requires forall i {:trigger vs[i]} :: 0 <= i < |vs| ==> Survives(bytesOf, of, size, vs[i])
    ensures |Pack(bytesOf, vs)| == |vs| * size
    ensures Values(of, size, Pack(bytesOf, vs) + rest, |vs|) == vs
    decreases |vs|
  {
    if vs != [] {
      ValuesOfPack(bytesOf, of, size, vs[1..], rest);
      var head, tail := bytesOf(vs[0]), Pack(bytesOf, vs[1..]);
      assert Survives(bytesOf, of, size, vs[0]);
      assert |vs| * size == size + (|vs| - 1) * size;
      assert Pack(bytesOf, vs) + rest == head + (tail + rest);
      assert (head + (tail + rest))[..size] == head && (head + (tail + rest))[size..] == tail + rest;
    }
  }

  lemma {:induction false} UnpackOfPack<T>(
      bytesOf: T -> seq<u8>, of: seq<u8> -> T, size: nat, vs: seq<T>, rest: seq<u8>)
    requires size > 0 && forall i {:trigger vs[i]} :: 0 <= i < |vs| ==> Survives(bytesOf, of, size, vs[i])
    ensures |Pack(bytesOf, vs)| == |vs| * size
    ensures Unpack(of, size, Pack(bytesOf, vs) + rest, |vs|) == Some((vs, rest))
  {
    ValuesOfPack(bytesOf, of, size, vs, rest);
    Product(|vs|, |Pack(bytesOf, vs) + rest|, size);
    assert (Pack(bytesOf, vs) + rest)[|vs| * size..] == rest;
  }

  lemma {:induction false} ReferenceValues(bytes: seq<u8>)
    ensures Values(Byte, 1, bytes, |bytes|) == bytes
    decreases |bytes|
  {
    if bytes != [] {
      ReferenceValues(bytes[1..]);
      assert bytes == [bytes[0]] + bytes[1..];
    }
  }

  /** Values that fit their fields. */
  ghost predicate FitsCut(cut: Cut) {
    && cut.generation <= U64_MAX && cut.committedMonotonicNs <= U64_MAX && FitsManifest(cut.manifest)
    && (forall i :: 0 <= i < |cut.blocks| ==> FitsRange(cut.blocks[i]))
    && |cut.sources| <= U64_MAX && |cut.gaps| <= U64_MAX && |cut.blocks| <= U64_MAX && |cut.referencePayload| <= U64_MAX
  }

  function CutBytes(cut: Cut): nat {
    CUT_HEADER_BYTES + |cut.sources| * SOURCE_BYTES + |cut.gaps| * GAP_BYTES + |cut.blocks| * RANGE_BYTES +
        |cut.referencePayload|
  }

  lemma {:induction false} SourceTable(l: Layout, vs: seq<Source>, rest: seq<u8>)
    requires LawfulLayout(l)
    ensures |Pack(l.sourceBytes, vs)| == |vs| * SOURCE_BYTES
    ensures Unpack(l.sourceOf, SOURCE_BYTES, Pack(l.sourceBytes, vs) + rest, |vs|) == Some((vs, rest))
  {
    forall i | 0 <= i < |vs| ensures Survives(l.sourceBytes, l.sourceOf, SOURCE_BYTES, vs[i]) {
      assert SourceSurvives(l, vs[i]);
    }
    UnpackOfPack(l.sourceBytes, l.sourceOf, SOURCE_BYTES, vs, rest);
  }

  lemma {:induction false} GapTable(l: Layout, vs: seq<Gap>, rest: seq<u8>)
    requires LawfulLayout(l)
    ensures |Pack(l.gapBytes, vs)| == |vs| * GAP_BYTES
    ensures Unpack(l.gapOf, GAP_BYTES, Pack(l.gapBytes, vs) + rest, |vs|) == Some((vs, rest))
  {
    forall i | 0 <= i < |vs| ensures Survives(l.gapBytes, l.gapOf, GAP_BYTES, vs[i]) {
      assert GapSurvives(l, vs[i]);
    }
    UnpackOfPack(l.gapBytes, l.gapOf, GAP_BYTES, vs, rest);
  }

  lemma {:induction false} RangeTable(l: Layout, vs: seq<BlockRange>, rest: seq<u8>)
    requires LawfulLayout(l) && forall i :: 0 <= i < |vs| ==> FitsRange(vs[i])
    ensures |Pack(l.rangeBytes, vs)| == |vs| * RANGE_BYTES
    ensures Unpack(l.rangeOf, RANGE_BYTES, Pack(l.rangeBytes, vs) + rest, |vs|) == Some((vs, rest))
  {
    forall i | 0 <= i < |vs| ensures Survives(l.rangeBytes, l.rangeOf, RANGE_BYTES, vs[i]) {
      assert RangeSurvives(l, vs[i]);
    }
    UnpackOfPack(l.rangeBytes, l.rangeOf, RANGE_BYTES, vs, rest);
  }

  lemma {:induction false} ReferenceTable(bytes: seq<u8>)
    ensures Unpack(Byte, 1, bytes, |bytes|) == Some((bytes, []))
  {
    ReferenceValues(bytes);
    Product(|bytes|, |bytes|, 1);
    assert bytes[|bytes| * 1..] == [];
  }

  lemma {:induction false} TablesRoundTrip(c: Codec, l: Layout, cut: Cut, h: CutHeader)
    requires LawfulLayout(l) && FitsCut(cut)
    requires h.sources == |cut.sources| && h.gaps == |cut.gaps| && h.blocks == |cut.blocks|
    requires h.referenceBytes == |cut.referencePayload|
    ensures |PayloadOf(l, cut)| == CutBytes(cut) - CUT_HEADER_BYTES
    ensures UnpackTables(l, h,
            PayloadOf(l, cut)) == Some(Tables(cut.sources, cut.gaps, cut.blocks, cut.referencePayload))
    ensures |cut.sources| * SOURCE_BYTES <= |PayloadOf(l, cut)|
    ensures PayloadOf(l, cut)[..|cut.sources| * SOURCE_BYTES] == Pack(l.sourceBytes, cut.sources)
  {
    var s, g, b, r := Pack(l.sourceBytes, cut.sources), Pack(l.gapBytes, cut.gaps), Pack(l.rangeBytes, cut.blocks),
        cut.referencePayload;
    assert PayloadOf(l, cut) == s + (g + (b + r));
    SourceTable(l, cut.sources, g + (b + r));
    GapTable(l, cut.gaps, b + r);
    RangeTable(l, cut.blocks, r);
    ReferenceTable(r);
  }

  /** Header, counts and manifest agree. */
  ghost predicate Framed(cut: Cut) {
    var m := cut.manifest;
    && m.maximumBytes != 0 && CutBytes(cut) <= m.maximumBytes && cut.generation != 0
    && 0 < |cut.sources| <= MAXIMUM_SOURCES && |cut.sources| == m.sourceCount
    && |cut.gaps| <= |cut.sources| * STORED_CHANNELS && |cut.referencePayload| <= MAXIMUM_REFERENCE_BYTES
    && cut.finalized == (m.finalizedReceiveNs > 0)
    && m.magic == MANIFEST_MAGIC && m.headerBytes == MANIFEST_BYTES && m.producerEpoch != 0
    && m.startedReceiveNs > 0 && m.replayAnchorMonotonicNs != 0
    && cut.progress.producerEpoch == m.producerEpoch && 0 < cut.progress.shardCount == m.shardCount <= MAXIMUM_SHARDS
    && |cut.gaps| == m.gapCount
  }

  /** The tables of a cut stand on their own. */
  ghost predicate Sound(c: Codec, cut: Cut) {
    && SourcesHold(cut.sources) && GapsHold(cut.gaps, |cut.sources|, cut.progress.shardCount)
    && BlocksHold(c, cut.blocks, cut.manifest, cut.progress.shardCount)
  }

  lemma {:induction false} HeaderRoundTrip(c: Codec, l: Layout, cut: Cut)
    requires LawfulLayout(l) && FitsCut(cut) && CutBytes(cut) <= U64_MAX
    ensures var h := SealedHeader(c, l, cut);
            && |l.headerBytes(h)| == CUT_HEADER_BYTES && l.headerOf(l.headerBytes(h)) == h
            && |FileOf(c, l, cut)| == CutBytes(cut) == h.bytes
            && FileOf(c, l, cut)[..CUT_HEADER_BYTES] == l.headerBytes(h)
            && FileOf(c, l, cut)[CUT_HEADER_BYTES..] == PayloadOf(l, cut)
  {
    var h := SealedHeader(c, l, cut);
    TablesRoundTrip(c, l, cut, h);
    assert CutHeaderSurvives(l, h);
  }

  lemma {:induction false} HeaderAccepted(c: Codec, l: Layout, cut: Cut)
    requires LawfulLayout(l) && FitsCut(cut) && CutBytes(cut) <= U64_MAX
    ensures ValidCutHeader(c, l, SealedHeader(c, l, cut), CutBytes(cut)) <==>
            Framed(cut) && cut.committedMonotonicNs != 0
  {
    var h := SealedHeader(c, l, cut);
    TablesRoundTrip(c, l, cut, h);
    SectionsAddUp(h, CutBytes(cut));
    assert h.(crc := 0, headerCrc := 0) == DraftHeader(c, l, cut);
    if cut.manifest.maximumBytes != 0 && CutBytes(cut) <= cut.manifest.maximumBytes {
      Product(|cut.blocks|, cut.manifest.maximumBytes, RANGE_BYTES);
    }
  }

  /** Reading undoes writing, and a written cut is refused exactly when its frame or a table is
      unsound or its commit clock reads zero. */
  lemma {:induction false} CutRoundTrip(c: Codec, l: Layout, cut: Cut)
    requires LawfulLayout(l) && FitsCut(cut) && CutBytes(cut) <= U64_MAX
    ensures DecodeCut(c, l, FileOf(c, l, cut)) ==
            if Framed(cut) && Sound(c, cut) && cut.committedMonotonicNs != 0 then Some(cut) else None
    ensures |FileOf(c, l, cut)| == CutBytes(cut)
  {
    var h := SealedHeader(c, l, cut);
    var bytes := FileOf(c, l, cut);
    HeaderRoundTrip(c, l, cut);
    HeaderAccepted(c, l, cut);
    TablesRoundTrip(c, l, cut, h);
    assert h.(crc := 0) == CheckedHeader(c, l, cut);
    assert ChecksumHolds(c, l, h, bytes);
    assert SourceChecksumHolds(c, h, PayloadOf(l, cut));
    var t := Tables(cut.sources, cut.gaps, cut.blocks, cut.referencePayload);
    assert CutFrom(h, t) == cut;
  }
}
