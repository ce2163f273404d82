/** The sealed reader's loops and its cursor object (src/Runtime/src/Corpus/
    BinaryMarketCorpusReader.cpp), proved against the functions of module SealedReader.  The cursor
    decodes one segment of each shard at a time. */
module SealedObject {
  import opened Records
  import opened Storage
  import opened Formats
  import opened Index
  import opened Merge
  import opened SegmentFiles
  import SR = SealedReader

  // --- The index derived from rows ------------------------------------------------------------------

  lemma {:induction false} ObserveAt(es: seq<Entry>, at: nat, k: nat, shard: nat, r: Record)
    requires at <= |es| && forall i :: 0 <= i < at ==> es[i].key != KeyOf(r)
    ensures at < |es| && es[at].key == KeyOf(r) ==> Observe(es, k, shard, r) == es[at := Touch(es[at], r)]
    ensures at == |es| ==> Observe(es, k, shard, r) == es + [Touch(Fresh(k, shard, KeyOf(r)), r)]
    decreases at
  {
    if at > 0 {
      ObserveAt(es[1..], at - 1, k, shard, r);
      if at < |es| && es[at].key == KeyOf(r) {
        assert [es[0]] + es[1..][at - 1 := Touch(es[at], r)] == es[at := Touch(es[at], r)];
      } else if at == |es| {
        assert [es[0]] + (es[1..] + [Touch(Fresh(k, shard, KeyOf(r)), r)]) == es +
            [Touch(Fresh(k, shard, KeyOf(r)), r)];
      }
    } else if es != [] && es[0].key == KeyOf(r) {
      assert es[0 := Touch(es[0], r)] == [Touch(es[0], r)] + es[1..];
    }
  }

  /** Row by row: find the row's entry or add one, then bring it up to date. */
  method RecomputeIndex(k: nat, shard: nat, rows: seq<Record>) returns (observed: seq<Entry>)
    ensures observed == Recompute(k, shard, rows)
  {
    observed := [];
    var n := 0;
    while n < |rows|
      invariant 0 <= n <= |rows| && observed == Recompute(k, shard, rows[..n])
    {
      var r := rows[n];
      var at := 0;
      while at < |observed| && observed[at].key != KeyOf(r)
        invariant 0 <= at <= |observed| && forall i :: 0 <= i < at ==> observed[i].key != KeyOf(r)
      {
        at := at + 1;
      }
      ObserveAt(observed, at, k, shard, r);
      RecomputeAppend(k, shard, rows[..n], r);
      assert rows[..n + 1] == rows[..n] + [r];
      if at < |observed| {
        observed := observed[at := Touch(observed[at], r)];
      } else {
        observed := observed + [Touch(Fresh(k, shard, KeyOf(r)), r)];
      }
      n := n + 1;
    }
    assert rows[..n] == rows;
  }

  // --- The index table ----------------------------------------------------------------------------

  /** Entry i is of segment k. */
  ghost predicate OfSegment(index: seq<Entry>, i: int, k: nat) { 0 <= i < |index| && index[i].segmentNumber == k }

  /** The shards noted for the segments of the first n entries. */
  ghost predicate ShardsNoted(index: seq<Entry>, n: nat, shards: map<nat, nat>)
    requires n <= |index|
  {
    && (forall i :: 0 <= i < n ==>
         index[i].segmentNumber in shards && shards[index[i].segmentNumber] == index[i].shardIndex)
    && forall k {:trigger k in shards} :: k in shards ==> exists i :: 0 <= i < n && OfSegment(index, i, k)
  }

  function Identity(e: Entry): (nat, Key) { (e.segmentNumber, e.key) }

  /** Entry i has identity x. */
  ghost predicate HasIdentity(index: seq<Entry>, i: int, x: (nat, Key)) { 0 <= i < |index| && Identity(index[i]) == x }

  ghost predicate IdentitiesNoted(index: seq<Entry>, n: nat, identities: set<(nat, Key)>)
    requires n <= |index|
  {
    && (forall i :: 0 <= i < n ==> Identity(index[i]) in identities)
    && forall x {:trigger x in identities} :: x in identities ==> exists i :: 0 <= i < n && HasIdentity(index, i, x)
  }

  lemma {:induction false} ShardsNotedMore(index: seq<Entry>, n: nat, shards: map<nat, nat>)
    requires n < |index| && ShardsNoted(index, n, shards)
    requires index[n].segmentNumber in shards ==> shards[index[n].segmentNumber] == index[n].shardIndex
    ensures ShardsNoted(index, n + 1, shards[index[n].segmentNumber := index[n].shardIndex])
  {
    var more := shards[index[n].segmentNumber := index[n].shardIndex];
    forall k | k in more
      ensures exists i :: 0 <= i < n + 1 && OfSegment(index, i, k)
    {
      if k == index[n].segmentNumber {
        assert OfSegment(index, n, k);
      } else {
        var i :| 0 <= i < n && OfSegment(index, i, k);
        assert 0 <= i < n + 1 && OfSegment(index, i, k);
      }
    }
  }

  lemma {:induction false} IdentitiesNotedMore(index: seq<Entry>, n: nat, identities: set<(nat, Key)>)
    requires n < |index| && IdentitiesNoted(index, n, identities)
    ensures IdentitiesNoted(index, n + 1, identities + {Identity(index[n])})
  {
    var more := identities + {Identity(index[n])};
    forall x | x in more
      ensures exists i :: 0 <= i < n + 1 && HasIdentity(index, i, x)
    {
      if x == Identity(index[n]) {
        assert HasIdentity(index, n, x);
      } else {
        var i :| 0 <= i < n && HasIdentity(index, i, x);
        assert 0 <= i < n + 1 && HasIdentity(index, i, x);
      }
    }
  }

  ghost predicate EntryChecked(a: SR.Archive, i: int)
    requires 0 <= i < |a.index|
  {
    SR.EntryHolds(a.index[i], a.manifest, |a.sources|) && SR.NotBefore(a.index[i], a.sources)
  }

  ghost predicate PairChecked(index: seq<Entry>, i: int, j: int)
    requires 0 <= i < |index| && 0 <= j < |index|
  {
    SR.EntriesAgree(index[i], index[j])
  }

  ghost predicate Checked(a: SR.Archive, n: nat)
    requires n <= |a.index|
  {
    && (forall i {:trigger EntryChecked(a, i)} :: 0 <= i < n ==> EntryChecked(a, i))
    && forall i, j {:trigger PairChecked(a.index, i, j)} :: 0 <= i < j < n ==> PairChecked(a.index, i, j)
  }

  lemma {:induction false} AgreesWithAll(a: SR.Archive, n: nat, shards: map<nat, nat>, identities: set<(nat, Key)>)
    requires n < |a.index| && ShardsNoted(a.index, n, shards) && IdentitiesNoted(a.index, n, identities)
    requires Checked(a, n) && EntryChecked(a, n)
    requires a.index[n].segmentNumber in shards ==> shards[a.index[n].segmentNumber] == a.index[n].shardIndex
    requires Identity(a.index[n]) !in identities
    ensures Checked(a, n + 1)
  {
    forall i, j | 0 <= i < j < n + 1
      ensures PairChecked(a.index, i, j)
    {
      if j == n {
        assert Identity(a.index[i]) in identities;
      } else {
        assert PairChecked(a.index, i, j);
      }
    }
  }

  lemma {:induction false} CheckedAll(a: SR.Archive)
    requires Checked(a, |a.index|)
    ensures forall i :: 0 <= i < |a.index| ==>
            SR.EntryHolds(a.index[i], a.manifest, |a.sources|) && SR.NotBefore(a.index[i], a.sources)
    ensures SR.EntriesConsistent(a.index)
  {
    forall i | 0 <= i < |a.index|
      ensures SR.EntryHolds(a.index[i], a.manifest, |a.sources|) && SR.NotBefore(a.index[i], a.sources)
    {
      assert EntryChecked(a, i);
    }
    forall i, j | 0 <= i < j < |a.index|
      ensures SR.EntriesAgree(a.index[i], a.index[j])
    {
      assert PairChecked(a.index, i, j);
    }
  }

  lemma {:induction false} Disagrees(a: SR.Archive, i: nat, j: nat)
    requires i < j < |a.index| && !SR.EntriesAgree(a.index[i], a.index[j])
    ensures !SR.IndexHolds(a)
  {
  }

  lemma {:induction false} SumPrefix(es: seq<Entry>, n: nat)
    requires n < |es|
    ensures SumEntries(es[..n + 1]) == SumEntries(es[..n]) + es[n].recordCount
    decreases n
  {
    if n > 0 {
      SumPrefix(es[1..], n - 1);
      assert es[..n + 1][1..] == es[1..][..n] && es[..n][1..] == es[1..][..n - 1];
    } else {
      assert es[..1][1..] == [];
    }
  }

  lemma {:induction false} SumPrefixWithin(es: seq<Entry>, n: nat)
    requires n <= |es|
    ensures SumEntries(es[..n]) <= SumEntries(es)
    decreases |es| - n
  {
    if n < |es| {
      SumPrefix(es, n);
      SumPrefixWithin(es, n + 1);
    } else {
      assert es[..n] == es;
    }
  }

  lemma {:induction false} NotedSegments(index: seq<Entry>, shards: map<nat, nat>)
    requires ShardsNoted(index, |index|, shards)
    ensures shards.Keys == SR.Segments(index)
  {
    forall k
      ensures k in shards.Keys <==> k in SR.Segments(index)
    {
      if k in shards.Keys {
        assert k in shards;
        var i :| 0 <= i < |index| && OfSegment(index, i, k);
      }
    }
  }

  /** Whether entry n clashes with what is noted of the entries before it. */
  method Clashes(a: SR.Archive, n: nat, shards: map<nat, nat>, identities: set<(nat, Key)>) returns (clash: bool)
    requires n < |a.index| && ShardsNoted(a.index, n, shards) && IdentitiesNoted(a.index, n, identities)
    requires Checked(a, n)
    ensures clash ==> !SR.IndexHolds(a)
    ensures !clash ==> Checked(a, n + 1)
    ensures !clash && a.index[n].segmentNumber in shards ==> shards[a.index[n].segmentNumber] == a.index[n].shardIndex
  {
    var e := a.index[n];
    if !SR.EntryHolds(e, a.manifest, |a.sources|) || !SR.NotBefore(e, a.sources) { return true; }
    if e.segmentNumber in shards && shards[e.segmentNumber] != e.shardIndex {
      ghost var i :| 0 <= i < n && OfSegment(a.index, i, e.segmentNumber);
      Disagrees(a, i, n);
      return true;
    }
    if Identity(e) in identities {
      ghost var i :| 0 <= i < n && HasIdentity(a.index, i, Identity(e));
      Disagrees(a, i, n);
      return true;
    }
    AgreesWithAll(a, n, shards, identities);
    return false;
  }

  /** One pass over the index table, as `open` makes it. */
  method CheckIndex(a: SR.Archive) returns (ok: bool)
    ensures ok == SR.IndexHolds(a)
  {
    var shards: map<nat, nat> := map[];
    var identities: set<(nat, Key)> := {};
    var records := 0;
    var n := 0;
    while n < |a.index|
      invariant 0 <= n <= |a.index| && ShardsNoted(a.index, n, shards) && IdentitiesNoted(a.index, n, identities)
      invariant Checked(a, n)
      invariant records == SumEntries(a.index[..n]) <= U64_MAX
    {
      var e := a.index[n];
      var clash := Clashes(a, n, shards, identities);
      if clash { return false; }
      SumPrefix(a.index, n);
      if records > U64_MAX - e.recordCount {
        Overflows(a, n + 1);
        return false;
      }
      ShardsNotedMore(a.index, n, shards);
      IdentitiesNotedMore(a.index, n, identities);
      shards := shards[e.segmentNumber := e.shardIndex];
      identities := identities + {Identity(e)};
      records := records + e.recordCount;
      n := n + 1;
    }
    assert a.index[..n] == a.index;
    TotalsDecide(a, shards);
    return records == a.manifest.recordCount && |shards.Keys| == a.manifest.segmentCount;
  }

  lemma {:induction false} Overflows(a: SR.Archive, n: nat)
    requires n <= |a.index| && SumEntries(a.index[..n]) > U64_MAX
    ensures !SR.IndexHolds(a)
  {
    SumPrefixWithin(a.index, n);
  }

  lemma {:induction false} TotalsDecide(a: SR.Archive, shards: map<nat, nat>)
    requires Checked(a, |a.index|) && ShardsNoted(a.index, |a.index|, shards) && SumEntries(a.index) <= U64_MAX
    ensures SR.IndexHolds(a) <==>
            SumEntries(a.index) == a.manifest.recordCount && |shards.Keys| == a.manifest.segmentCount
  {
    CheckedAll(a);
    NotedSegments(a.index, shards);
  }

  // --- The scan -----------------------------------------------------------------------------------

  method MatchIndex(index: seq<Entry>, k: nat, observed: seq<Entry>) returns (ok: bool)
    ensures ok == SR.IndexMatches(index, k, observed)
  {
    if |EntriesOf(index, k)| != |observed| { return false; }
    var n := 0;
    while n < |observed|
      invariant 0 <= n <= |observed|
      invariant forall i :: 0 <= i < n ==> SR.FindEntry(index, k, observed[i].key) == Some(observed[i])
    {
      if SR.FindEntry(index, k, observed[n].key) != Some(observed[n]) { return false; }
      n := n + 1;
    }
    return true;
  }

  method CheckSegment(c: Codec, a: SR.Archive, k: nat, before: seq<Record>) returns (rows: Option<seq<Record>>)
    ensures rows == SR.CheckSegment(c, a, k, before)
  {
    var shard := SR.ShardOf(a.index, k);
    if shard.None? || k !in a.files || !HeaderOpens(a.files[k], k, shard.value, a.manifest.producerEpoch) {
      return None;
    }
    var ok, decoded := DecodeSegment(c, a.files[k], |a.sources|);
    if !ok || !SR.FollowsShard(before, decoded) { return None; }
    var observed := RecomputeIndex(k, shard.value, decoded);
    ok := MatchIndex(a.index, k, observed);
    return if ok then Some(decoded) else None;
  }

  /** This is the outcome of scanning segments 1 to k. */
  ghost predicate ScanIs(c: Codec, a: SR.Archive, k: nat, scan: SR.Scan) { scan == SR.ScanSegments(c, a, k) }

  lemma {:induction false} ScanIsNext(c: Codec, a: SR.Archive, k: nat, before: SR.Scan, scan: SR.Scan)
    requires k > 0 && ScanIs(c, a, k - 1, before) && scan == SR.ScanOne(c, a, k, before)
    ensures ScanIs(c, a, k, scan)
  {
  }

  /** Segment k behind a scan of those before it. */
  method ScanOne(c: Codec, a: SR.Archive, k: nat, before: SR.Scan) returns (scan: SR.Scan)
    requires before.Scan?
    ensures scan == SR.ScanOne(c, a, k, before)
  {
    var shard := SR.ShardOf(a.index, k);
    if shard.None? || shard.value >= |before.streams| { return SR.ScanFailed; }
    var rows := CheckSegment(c, a, k, before.streams[shard.value]);
    if rows.None? || k !in a.files { return SR.ScanFailed; }
    var bytes := SR.SegmentBytes(a.files[k]);
    if before.physical + bytes > a.manifest.projectedBytes { return SR.ScanFailed; }
    var streams := before.streams[shard.value := before.streams[shard.value] + rows.value];
    return SR.Scan(streams, before.physical + bytes, before.records + |rows.value|);
  }

  method ScanNext(c: Codec, a: SR.Archive, k: nat, before: SR.Scan) returns (scan: SR.Scan)
    requires k > 0 && before.Scan? && ScanIs(c, a, k - 1, before)
    ensures ScanIs(c, a, k, scan)
  {
    scan := ScanOne(c, a, k, before);
    ScanIsNext(c, a, k, before, scan);
  }

  /** The full preflight over segments 1 to segmentCount. */
  method ScanSegments(c: Codec, a: SR.Archive) returns (scan: SR.Scan)
    ensures ScanIs(c, a, a.manifest.segmentCount, scan)
  {
    scan := SR.Scan(SR.NoStreams(a.manifest.shardCount), SR.MetadataBytes(a), 0);
    var k := 0;
    while k < a.manifest.segmentCount
      invariant 0 <= k <= a.manifest.segmentCount && ScanIs(c, a, k, scan) && scan.Scan?
    {
      k := k + 1;
      scan := ScanNext(c, a, k, scan);
      if scan.ScanFailed? {
        ScanFails(c, a, k, a.manifest.segmentCount);
        return;
      }
    }
  }

  lemma {:induction false} ScanFails(c: Codec, a: SR.Archive, n: nat, k: nat)
    requires n <= k && ScanIs(c, a, n, SR.ScanFailed)
    ensures ScanIs(c, a, k, SR.ScanFailed)
  {
    for i := n to k
      invariant ScanIs(c, a, i, SR.ScanFailed)
    {
      StaysFailed(c, a, i + 1);
    }
  }

  lemma {:induction false} StaysFailed(c: Codec, a: SR.Archive, k: nat)
    requires k > 0 && ScanIs(c, a, k - 1, SR.ScanFailed)
    ensures ScanIs(c, a, k, SR.ScanFailed)
  {
  }

  // --- The cursor ---------------------------------------------------------------------------------

  /** Rows of a list of segments, one behind the other; a segment that does not decode has none. */
  function RowsOf(c: Codec, a: SR.Archive, ks: seq<nat>): seq<Record>
    decreases |ks|
  {
    if ks == [] then []
    else Decoded(c, a, ks[0]) + RowsOf(c, a, ks[1..])
  }

  function Decoded(c: Codec, a: SR.Archive, k: nat): seq<Record> {
    if k in a.files && ReadSegment(c, a.files[k], |a.sources|).Some? then ReadSegment(c, a.files[k], |a.sources|).value
    else []
  }

  /** Every listed segment decodes. */
  predicate Decodes(c: Codec, a: SR.Archive, ks: seq<nat>) {
    forall i :: 0 <= i < |ks| ==> ks[i] in a.files && ReadSegment(c, a.files[ks[i]], |a.sources|).Some?
  }

  /** One shard: the segments still to be decoded, the rows decoded but not shown, and the row shown. */
  datatype Shard = Shard(segments: seq<nat>, decoded: seq<Record>, head: Option<Record>)

  function Left(c: Codec, a: SR.Archive, s: Shard): seq<Record> {
    (match s.head case Some(r) => [r] case None => []) + s.decoded + RowsOf(c, a, s.segments)
  }

  function Lefts(c: Codec, a: SR.Archive, shards: seq<Shard>): (rest: seq<seq<Record>>)
    ensures |rest| == |shards| && forall n :: 0 <= n < |shards| ==> rest[n] == Left(c, a, shards[n])
    decreases |shards|
  {
    if shards == [] then []
    else Lefts(c, a, shards[..|shards| - 1]) + [Left(c, a, shards[|shards| - 1])]
  }

  /** Nothing is left of a shard that shows no row. */
  ghost predicate Ready(c: Codec, a: SR.Archive, s: Shard) {
    Decodes(c, a, s.segments) && (s.head.None? ==> Left(c, a, s) == [])
  }

  /** Decode on until a row can be shown. */
  method FillHead(c: Codec, a: SR.Archive, s: Shard) returns (t: Shard)
    requires Decodes(c, a, s.segments) && s.head.None?
    ensures Left(c, a, t) == Left(c, a, s) && Ready(c, a, t)
  {
    t := s;
    while t.decoded == [] && t.segments != []
      invariant t.head.None? && Decodes(c, a, t.segments) && Left(c, a, t) == Left(c, a, s)
      decreases |t.segments|
    {
      var ok, rows := DecodeSegment(c, a.files[t.segments[0]], |a.sources|);
      LeftDecoded(c, a, t.segments, rows);
      t := Shard(t.segments[1..], rows, None);
    }
    LeftShown(c, a, t);
    if t.decoded != [] { t := Shard(t.segments, t.decoded[1..], Some(t.decoded[0])); }
  }

  lemma {:induction false} LeftDecoded(c: Codec, a: SR.Archive, ks: seq<nat>, rows: seq<Record>)
    requires ks != [] && ks[0] in a.files && ReadSegment(c, a.files[ks[0]], |a.sources|) == Some(rows)
    ensures Left(c, a, Shard(ks[1..], rows, None)) == Left(c, a, Shard(ks, [], None))
  {
  }

  lemma {:induction false} LeftShown(c: Codec, a: SR.Archive, s: Shard)
    requires s.head.None?
    ensures s.decoded != [] ==> Left(c, a, Shard(s.segments, s.decoded[1..], Some(s.decoded[0]))) == Left(c, a, s)
    ensures s.decoded == [] && s.segments == [] ==> Left(c, a, s) == []
  {
    if s.decoded != [] { assert s.decoded == [s.decoded[0]] + s.decoded[1..]; }
  }

  /** The shard shows the first row of the listed segments and has the rest still to come. */
  ghost predicate Begun(c: Codec, a: SR.Archive, s: Shard, ks: seq<nat>) {
    Ready(c, a, s) && Left(c, a, s) == RowsOf(c, a, ks)
  }

  method Begin(c: Codec, a: SR.Archive, ks: seq<nat>) returns (s: Shard)
    requires Decodes(c, a, ks)
    ensures Begun(c, a, s, ks)
  {
    s := FillHead(c, a, Shard(ks, [], None));
    LeftOfNone(c, a, ks);
  }

  /** Show the first row of every shard. */
  method BeginAll(c: Codec, a: SR.Archive, segments: seq<seq<nat>>) returns (shards: seq<Shard>)
    requires forall n :: 0 <= n < |segments| ==> Decodes(c, a, segments[n])
    ensures |shards| == |segments| && forall n :: 0 <= n < |segments| ==> Begun(c, a, shards[n], segments[n])
  {
    shards := [];
    var n := 0;
    while n < |segments|
      invariant 0 <= n <= |segments| && |shards| == n && forall m :: 0 <= m < n ==> Begun(c, a, shards[m], segments[m])
    {
      var shard := Begin(c, a, segments[n]);
      shards := shards + [shard];
      n := n + 1;
    }
  }

  lemma {:induction false} LeftOfNone(c: Codec, a: SR.Archive, ks: seq<nat>)
    ensures Left(c, a, Shard(ks, [], None)) == RowsOf(c, a, ks)
  {
  }

  /** A shard shows the first row left of it, if any is left. */
  lemma {:induction false} Shown(c: Codec, a: SR.Archive, s: Shard)
    requires Ready(c, a, s)
    ensures Shows(s, Left(c, a, s))
  {
  }

  ghost predicate Shows(s: Shard, left: seq<Record>) {
    (s.head.Some? <==> left != []) && (s.head.Some? ==> left[0] == s.head.value)
  }

  /** The shard whose row comes first in the seven-key order. */
  method LeastOf(shards: seq<Shard>, ghost rest: seq<seq<Record>>) returns (b: Option<nat>)
    requires |rest| == |shards| && forall n :: 0 <= n < |shards| ==> Shows(shards[n], rest[n])
    ensures b == SR.LeastHead(rest, |shards|)
  {
    b := None;
    var n := 0;
    while n < |shards|
      invariant 0 <= n <= |shards| && b == SR.LeastHead(rest, n)
    {
      if shards[n].head.Some? {
        if b.None? || RecordBefore(shards[n].head.value, shards[b.value].head.value) { b := Some(n); }
      }
      n := n + 1;
    }
  }

  lemma {:induction false} MergedStep(rest: seq<seq<Record>>, b: nat)
    requires SR.LeastHead(rest, |rest|) == Some(b)
    ensures var m := SR.RecordMerged(rest);
            m != [] && m[0] == rest[b][0] && m[1..] == SR.RecordMerged(Pop(rest, b))
  {
    PopTotal(rest, b);
  }

  class BinaryMarketCorpusCursor {
    const codec: Codec
    const archive: SR.Archive
    const request: SR.Request
    const choice: SR.Choice
    var shards: seq<Shard>
    var lanes: SR.Lanes
    var failed: bool

    ghost function Value(): SR.Cursor
      reads this
    {
      SR.Cursor(Lefts(codec, archive, shards), lanes, failed)
    }

    ghost predicate Valid()
      reads this
    {
      choice.Chosen? && forall n :: 0 <= n < |shards| ==> Ready(codec, archive, shards[n])
    }

    /** A cursor at the beginning of an opened archive; `segments` lists each shard's segments. */
    constructor (codec: Codec, archive: SR.Archive, request: SR.Request, choice: SR.Choice, segments: seq<seq<nat>>)
      requires choice.Chosen? && forall n :: 0 <= n < |segments| ==> Decodes(codec, archive, segments[n])
      ensures Valid() && this.codec == codec && this.archive == archive && this.request == request
      ensures this.choice == choice
      ensures |shards| == |segments| && lanes == SR.StartLanes(archive) && !failed
      ensures forall n :: 0 <= n < |segments| ==> Left(codec, archive, shards[n]) == RowsOf(codec, archive, segments[n])
    {
      this.codec, this.archive, this.request, this.choice := codec, archive, request, choice;
      lanes, failed := SR.StartLanes(archive), false;
      var begun := BeginAll(codec, archive, segments);
      shards := begun;
    }

    method LeastShard() returns (b: Option<nat>)
      requires Valid()
      ensures b == SR.LeastHead(Value().rest, |shards|)
    {
      ghost var rest := Value().rest;
      forall n | 0 <= n < |shards|
        ensures Shows(shards[n], rest[n])
      {
        Shown(codec, archive, shards[n]);
      }
      b := LeastOf(shards, rest);
    }

    /** Take the shown row of shard b and show the next. */
    method Advance(b: nat)
      requires Valid() && b < |shards| && shards[b].head.Some?
      modifies this`shards
      ensures Valid() && |shards| == |old(shards)|
      ensures old(Value()).rest[b] != [] && Value().rest == Pop(old(Value()).rest, b)
    {
      var s := shards[b];
      ghost var rest := Value().rest;
      assert Ready(codec, archive, s) && rest[b] == Left(codec, archive, s);
      var gone := Shard(s.segments, s.decoded, None);
      assert Left(codec, archive, s) == [s.head.value] + Left(codec, archive, gone);
      assert rest[b][1..] == Left(codec, archive, gone);
      var t := FillHead(codec, archive, gone);
      shards := shards[b := t];
      assert Value().rest == Pop(rest, b);
    }

    /** One row of the dry run: judged, then passed over. */
    method SurveyOne(b: nat, present: set<Channel>) returns (refusal: Option<Status>, shown: set<Channel>)
      requires Valid() && !failed && b < |shards| && shards[b].head.Some?
      requires SR.LeastHead(Value().rest, |shards|) == Some(b)
      modifies this
      ensures Valid() && failed == old(failed) && |shards| == |old(shards)|
      ensures refusal.None? ==> Value().rest == Pop(old(Value()).rest, b)
      ensures old(Value()).rest[b] != []
      ensures var r := old(Value()).rest[b][0];
              var y := SR.Admit(r, old(lanes));
              if y.None? then refusal == Some(CorruptData)
              else if !SR.Selects(r, request, choice) then refusal.None? && lanes == y.value && shown == present
              else if GapBoundary in r.flags then refusal == Some(CorruptData)
              else if SR.Incompatible(r, request) then refusal == Some(Unimplemented)
              else refusal.None? && lanes == y.value
                   && shown == (if SR.ShowsMarket(r, y.value.states) then present + ChannelBit(r.channel) else present)
    {
      shown := present;
      assert Ready(codec, archive, shards[b]) && Value().rest[b] == Left(codec, archive, shards[b]);
      var r := shards[b].head.value;
      assert Value().rest[b][0] == r;
      var y := SR.Admit(r, lanes);
      if y.None? { return Some(CorruptData), present; }
      if SR.Selects(r, request, choice) {
        if GapBoundary in r.flags { return Some(CorruptData), present; }
        if SR.Incompatible(r, request) { return Some(Unimplemented), present; }
        if SR.ShowsMarket(r, y.value.states) { shown := present + ChannelBit(r.channel); }
      }
      lanes := y.value;
      Advance(b);
      refusal := None;
    }

    /** The dry run over the whole merge. */
    method Survey() returns (survey: SR.Survey)
      requires Valid() && !failed
      modifies this
      ensures survey == SR.Preflight(SR.RecordMerged(old(Value()).rest), old(lanes), request, choice, {})
    {
      var present: set<Channel> := {};
      ghost var goal := SR.Preflight(SR.RecordMerged(Value().rest), lanes, request, choice, {});
      while true
        invariant Valid() && !failed
        invariant SR.Preflight(SR.RecordMerged(Value().rest), lanes, request, choice, present) == goal
        decreases Total(Value().rest)
      {
        var b := LeastShard();
        if b.None? { return SR.Survey(lanes, present); }
        ghost var rest := Value().rest;
        PopTotal(rest, b.value);
        MergedStep(rest, b.value);
        var refusal, shown := SurveyOne(b.value, present);
        if refusal.Some? { return SR.Refusal(refusal.value); }
        present := shown;
      }
    }

    /** The next selected row, skipping those outside the selection. */
    method Next() returns (release: SR.Release)
      requires Valid()
      modifies this
      ensures Valid() && (release, Value()) == SR.Next(old(Value()), request, choice)
    {
      if failed { return SR.Broken(InvalidArgument); }
      ghost var goal := SR.Next(Value(), request, choice);
      while true
        invariant Valid() && !failed && SR.Next(Value(), request, choice) == goal
        decreases Total(Value().rest)
      {
        var b := LeastShard();
        if b.None? { return SR.Exhausted; }
        ghost var at := Value();
        assert Ready(codec, archive, shards[b.value]) && at.rest[b.value] == Left(codec, archive, shards[b.value]);
        var r := shards[b.value].head.value;
        assert at.rest[b.value][0] == r;
        var y := SR.Admit(r, lanes);
        if y.None? {
          failed := true;
          return SR.Broken(CorruptData);
        }
        PopTotal(at.rest, b.value);
        lanes := y.value;
        Advance(b.value);
        if SR.Selects(r, request, choice) {
          if GapBoundary in r.flags || SR.Incompatible(r, request) {
            failed := true;
            return SR.Broken(CorruptData);
          }
          return SR.Released(r);
        }
      }
    }
  }

  // --- The cursor's shards are the scanned streams --------------------------------------------------

  /** The segments of a shard among the first k, as `open` collects them. */
  function ListOf(index: seq<Entry>, shard: nat, k: nat): seq<nat>
    decreases k
  {
    if k == 0 then [] else ListOf(index, shard, k - 1) + (if SR.ShardOf(index, k) == Some(shard) then [k] else [])
  }

  lemma {:induction false} RowsConcat(c: Codec, a: SR.Archive, x: seq<nat>, y: seq<nat>)
    ensures RowsOf(c, a, x + y) == RowsOf(c, a, x) + RowsOf(c, a, y)
    decreases |x|
  {
    if x == [] {
      assert x + y == y;
    } else {
      RowsConcat(c, a, x[1..], y);
      assert (x + y)[1..] == x[1..] + y && (x + y)[0] == x[0];
      Associates(Decoded(c, a, x[0]), RowsOf(c, a, x[1..]), RowsOf(c, a, y));
    }
  }

  lemma {:induction false} RowsOfOne(c: Codec, a: SR.Archive, k: nat)
    requires k in a.files && ReadSegment(c, a.files[k], |a.sources|).Some?
    ensures RowsOf(c, a, [k]) == ReadSegment(c, a.files[k], |a.sources|).value
  {
    assert [k][1..] == [];
  }

  lemma {:induction false} CheckedDecodes(c: Codec, a: SR.Archive, k: nat, before: seq<Record>)
    requires SR.CheckSegment(c, a, k, before).Some?
    ensures k in a.files && ReadSegment(c, a.files[k], |a.sources|) == SR.CheckSegment(c, a, k, before)
  {
  }

  /** The scan of segments 1 to k completes with these streams. */
  ghost predicate ScansTo(c: Codec, a: SR.Archive, k: nat, streams: seq<seq<Record>>) {
    SR.ScanSegments(c, a, k).Scan? && SR.ScanSegments(c, a, k).streams == streams
  }

  /** What a completed scan did with segment k: its rows went to one shard. */
  lemma {:induction false} ScannedStep(c: Codec, a: SR.Archive, k: nat, streams: seq<seq<Record>>)
    returns (before: seq<seq<Record>>, shard: nat, rows: seq<Record>)
    requires k > 0 && ScansTo(c, a, k, streams)
    ensures ScansTo(c, a, k - 1, before) && SR.ShardOf(a.index, k) == Some(shard) && shard < |before|
    ensures k in a.files && ReadSegment(c, a.files[k], |a.sources|) == Some(rows)
    ensures streams == before[shard := before[shard] + rows]
  {
    before, shard := SR.ScanSegments(c, a, k - 1).streams, SR.ShardOf(a.index, k).value;
    CheckedDecodes(c, a, k, before[shard]);
    rows := SR.CheckSegment(c, a, k, before[shard]).value;
  }

  /** A shard's listed segments decode to its stream. */
  ghost predicate Listed(c: Codec, a: SR.Archive, n: nat, k: nat, streams: seq<seq<Record>>) {
    n < |streams| && Decodes(c, a, ListOf(a.index, n, k)) && RowsOf(c, a, ListOf(a.index, n, k)) == streams[n]
  }

  lemma {:induction false} ListedMore(c: Codec, a: SR.Archive, ks: seq<nat>, k: nat, rows: seq<Record>)
    requires Decodes(c, a, ks) && k in a.files && ReadSegment(c, a.files[k], |a.sources|) == Some(rows)
    ensures Decodes(c, a, ks + [k]) && RowsOf(c, a, ks + [k]) == RowsOf(c, a, ks) + rows
  {
    RowsConcat(c, a, ks, [k]);
    RowsOfOne(c, a, k);
  }

  lemma {:induction false} ListedStep(
      c: Codec, a: SR.Archive, n: nat, k: nat, shard: nat, rows: seq<Record>, before: seq<seq<Record>>)
    requires k > 0 && Listed(c, a, n, k - 1, before) && SR.ShardOf(a.index, k) == Some(shard) && shard < |before|
    requires k in a.files && ReadSegment(c, a.files[k], |a.sources|) == Some(rows)
    ensures Listed(c, a, n, k, before[shard := before[shard] + rows])
  {
    ListedMore(c, a, ListOf(a.index, n, k - 1), k, rows);
    if shard != n { assert ListOf(a.index, n, k - 1) + [] == ListOf(a.index, n, k - 1); }
  }

  /** Decoding a shard's listed segments one by one yields exactly its scanned stream. */
  lemma {:induction false} ListedRows(c: Codec, a: SR.Archive, k: nat, n: nat, streams: seq<seq<Record>>)
    requires ScansTo(c, a, k, streams) && n < a.manifest.shardCount
    ensures Listed(c, a, n, k, streams)
    decreases k
  {
    if k == 0 {
      ListedNone(c, a, n, streams);
    } else {
      var before, shard, rows := ScannedStep(c, a, k, streams);
      ListedRows(c, a, k - 1, n, before);
      ListedStep(c, a, n, k, shard, rows, before);
    }
  }

  lemma {:induction false} ListedNone(c: Codec, a: SR.Archive, n: nat, streams: seq<seq<Record>>)
    requires ScansTo(c, a, 0, streams) && n < a.manifest.shardCount
    ensures Listed(c, a, n, 0, streams)
  {
  }

  // --- Opening ------------------------------------------------------------------------------------

  ghost predicate ListsAre(index: seq<Entry>, lists: seq<seq<nat>>, k: nat) {
    forall n :: 0 <= n < |lists| ==> lists[n] == ListOf(index, n, k)
  }

  /** The segments of every shard, in order. */
  method ListSegments(a: SR.Archive) returns (lists: seq<seq<nat>>)
    ensures |lists| == a.manifest.shardCount && ListsAre(a.index, lists, a.manifest.segmentCount)
  {
    lists := seq(a.manifest.shardCount, _ => []);
    var k := 0;
    while k < a.manifest.segmentCount
      invariant 0 <= k <= a.manifest.segmentCount && |lists| == a.manifest.shardCount && ListsAre(a.index, lists, k)
    {
      k := k + 1;
      var shard := SR.ShardOf(a.index, k);
      if shard.Some? && shard.value < |lists| { lists := lists[shard.value := lists[shard.value] + [k]]; }
    }
  }

  method GapsHold(a: SR.Archive) returns (ok: bool)
    ensures ok == !exists i :: 0 <= i < |a.gaps| && !SR.GapHolds(a.gaps[i], a)
  {
    for i := 0 to |a.gaps|
      invariant forall n :: 0 <= n < i ==> SR.GapHolds(a.gaps[n], a)
    {
      if !SR.GapHolds(a.gaps[i], a) { return false; }
    }
    return true;
  }

  method GapsSpare(a: SR.Archive, q: SR.Request, choice: SR.Choice) returns (ok: bool)
    requires choice.Chosen?
    ensures ok == !exists i :: 0 <= i < |a.gaps| && SR.Hurts(a.gaps[i], q, choice)
  {
    for i := 0 to |a.gaps|
      invariant forall n :: 0 <= n < i ==> !SR.Hurts(a.gaps[n], q, choice)
    {
      if SR.Hurts(a.gaps[i], q, choice) { return false; }
    }
    return true;
  }

  /** A cursor at the start of scanned streams. */
  method Started(c: Codec, a: SR.Archive, q: SR.Request, choice: SR.Choice) returns (cursor: BinaryMarketCorpusCursor)
    requires choice.Chosen? && SR.ScanSegments(c, a, a.manifest.segmentCount).Scan?
    ensures fresh(cursor) && cursor.Valid() && cursor.request == q && cursor.choice == choice
    ensures cursor.Value() == SR.Start(a, SR.ScanSegments(c, a, a.manifest.segmentCount).streams)
  {
    var lists := ListSegments(a);
    ghost var streams := SR.ScanSegments(c, a, a.manifest.segmentCount).streams;
    forall n | 0 <= n < |lists|
      ensures Decodes(c, a, lists[n]) && RowsOf(c, a, lists[n]) == streams[n]
    {
      ListedRows(c, a, a.manifest.segmentCount, n, streams);
    }
    cursor := new BinaryMarketCorpusCursor(c, a, q, choice, lists);
    assert Lefts(c, a, cursor.shards) == streams;
  }

  /** Everything behind the metadata: segments, totals, the dry run, and a cursor at the start. */
  method OpenRows(c: Codec, a: SR.Archive, q: SR.Request, choice: SR.Choice)
    returns (status: Status, cursor: BinaryMarketCorpusCursor?)
    requires choice.Chosen?
    ensures var o := SR.OpenRows(c, a, q, choice);
            && (cursor != null <==> o.Open?) && (o.NotOpen? ==> status == o.status)
            && (cursor != null ==> cursor.Valid() && cursor.request == q && cursor.choice == choice
                                   && cursor.Value() == SR.Start(a, o.streams))
  {
    var scan := ScanSegments(c, a);
    if scan.ScanFailed? { return CorruptData, null; }
    if scan.physical > a.manifest.projectedBytes || scan.records != a.manifest.recordCount { return CorruptData, null; }
    var dry := Started(c, a, q, choice);
    var survey := dry.Survey();
    if survey.Refusal? { return survey.status, null; }
    if exists i :: 0 <= i < |survey.lanes.transactions| && !survey.lanes.transactions[i].Idle? {
      return CorruptData, null;
    }
    if !(q.required <= survey.present) { return OutOfRange, null; }
    status := Ok;
    cursor := Started(c, a, q, choice);
  }

  lemma {:induction false} MatchesGrow(sources: seq<Source>, matches: Source -> bool, n: nat)
    requires n <= |sources|
    ensures |SR.Matching(sources[..n], matches)| <= |SR.Matching(sources, matches)|
    decreases |sources| - n
  {
    if n < |sources| {
      assert sources[..n + 1][..n] == sources[..n];
      MatchesGrow(sources, matches, n + 1);
    } else {
      assert sources[..n] == sources;
    }
  }

  /** The one source with a name: a second match is ambiguous, none is out of range. */
  method ChooseNamed(sources: seq<Source>, matches: Source -> bool) returns (choice: SR.Choice)
    ensures choice == SR.Choose(sources, SR.Named(matches))
  {
    var selected: Option<nat> := None;
    for n := 0 to |sources|
      invariant SR.Matching(sources[..n], matches) == if selected.Some? then [selected.value] else []
    {
      assert sources[..n + 1][..n] == sources[..n];
      if matches(sources[n]) {
        if selected.Some? {
          MatchesGrow(sources, matches, n + 1);
          return SR.Unchosen(InvalidArgument);
        }
        selected := Some(n + 1);
      }
    }
    assert sources[..|sources|] == sources;
    return if selected.None? then SR.Unchosen(OutOfRange) else SR.Chosen([selected.value], false);
  }

  /** The listed sources: each must exist and be listed once. */
  method ChooseListed(sources: seq<Source>, ids: seq<nat>) returns (choice: SR.Choice)
    ensures choice == SR.Choose(sources, SR.Ids(ids))
  {
    if |ids| > |sources| { return SR.Unchosen(InvalidArgument); }
    var included: set<nat> := {};
    for n := 0 to |ids|
      invariant forall i :: 0 <= i < n ==> 0 < ids[i] <= |sources| && ids[i] in included
      invariant forall id :: id in included ==> exists i :: 0 <= i < n && ids[i] == id
      invariant forall i, j :: 0 <= i < j < n ==> ids[i] != ids[j]
    {
      if ids[n] == 0 || ids[n] > |sources| || ids[n] in included { return SR.Unchosen(InvalidArgument); }
      included := included + {ids[n]};
    }
    return if ids == [] then SR.Chosen([], true) else SR.Chosen(ids, false);
  }

  method ChooseSources(sources: seq<Source>, selection: SR.Selection) returns (choice: SR.Choice)
    ensures choice == SR.Choose(sources, selection)
  {
    match selection {
      case Everything => choice := SR.Chosen([], true);
      case Ids(ids) => choice := ChooseListed(sources, ids);
      case Named(matches) => choice := ChooseNamed(sources, matches);
    }
  }

  /** Everything before the segments: the request, manifest, catalog, tables, index and gaps. */
  method CheckMetadata(c: Codec, l: Layout, a: SR.Archive, q: SR.Request)
    returns (refusal: Option<Status>, choice: SR.Choice)
    ensures refusal.Some? ==> SR.OpenArchive(c, l, a, q) == SR.NotOpen(refusal.value)
    ensures refusal.None? ==> choice.Chosen? && SR.OpenArchive(c, l, a, q) == SR.OpenRows(c, a, q, choice)
  {
    choice := ChooseSources(a.sources, q.selection);
    if !SR.ValidRequest(q) { return Some(InvalidArgument), choice; }
    if !SR.CatalogHolds(c, l, a) { return Some(CorruptData), choice; }
    if q.beginReceiveNs < a.manifest.startedReceiveNs || q.endReceiveNs > a.manifest.finalizedReceiveNs {
      return Some(OutOfRange), choice;
    }
    if choice.Unchosen? { return Some(choice.status), choice; }
    var indexed := CheckIndex(a);
    if !SR.TablesRead(c, l, a) || !indexed { return Some(CorruptData), choice; }
    var held := GapsHold(a);
    if !held { return Some(CorruptData), choice; }
    var spared := GapsSpare(a, q, choice);
    if !spared { return Some(CorruptData), choice; }
    return None, choice;
  }

  /** The whole of `open`: it yields a cursor exactly when the archive opens for the request, at the
      start of its streams, and otherwise the same refusal. */
  method Open(
      c: Codec, l: Layout, a: SR.Archive, q: SR.Request) returns (status: Status, cursor: BinaryMarketCorpusCursor?)
    ensures var o := SR.OpenArchive(c, l, a, q);
            && (cursor != null <==> o.Open?) && (o.NotOpen? ==> status == o.status)
            && (cursor != null ==> cursor.Valid() && cursor.request == q && cursor.choice == o.choice
                                   && cursor.Value() == SR.Start(a, o.streams))
  {
    var refusal, choice := CheckMetadata(c, l, a, q);
    if refusal.Some? { return refusal.value, null; }
    status, cursor := OpenRows(c, a, q, choice);
  }
}
