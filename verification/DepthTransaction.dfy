/** One bounded depth transaction per producer shard
    (src/Contracts/include/hftrec/CorpusContract/BinaryMarketDepthTransaction.hpp). */
module DepthTransaction {
  import opened Records

  const LEVELS_PER_RECORD: nat := 32

  /** `Open` is the source's non-zero frame sequence.  `last` is the last native row, whose header
      every later row of the transaction is compared with. */
  datatype Transaction =
    | Idle
    | Open(frameSequence: u64, firstShardSequence: u64, receiveMonotonicNs: u64, receiveRealtimeNs: i64,
           nativeParts: nat, hasCoverage: bool, last: Option<Record>,
           nextNative: nat, chunkParts: nat, nextChunk: nat,
           coverageParts: nat, nextCoverage: nat, totalLevels: nat, totalCoverage: nat,
           awaitingCoverage: bool)

  predicate SameOwner(a: Record, b: Record) {
    a.sourceId == b.sourceId && a.sourceGeneration == b.sourceGeneration && a.sessionEpoch == b.sessionEpoch
  }

  const SEMANTIC_FLAGS: set<Flag> :=
    {TraderReplayCompatible, DepthSnapshot, DepthDelta, DepthPartial, DepthRebase, DepthStateFlag,
     DepthHasCoverage, DepthSourcePosition}

  /** A later chunk of the same native part repeats everything but its slice of the levels. */
  predicate ContinuesChunk(r: Record, p: DepthChunk, last: Record, q: DepthChunk) {
    && SameOwner(r, last)
    && r.eventSequence == last.eventSequence && r.exchangeTimestampNs == last.exchangeTimestampNs
    && r.sourceFlags == last.sourceFlags
    && r.flags * SEMANTIC_FLAGS == last.flags * SEMANTIC_FLAGS
    && p.evidence == q.evidence && p.frameKind == q.frameKind && p.state == q.state && p.failure == q.failure
  }

  predicate ChunkGeometry(p: DepthChunk) {
    && p.partCount != 0 && p.partIndex < p.partCount
    && p.levelOffset == p.partIndex * LEVELS_PER_RECORD
    && p.levelOffset <= p.totalLevelCount && p.levelCount <= LEVELS_PER_RECORD
    && p.levelCount == (if p.totalLevelCount - p.levelOffset < LEVELS_PER_RECORD
                        then p.totalLevelCount - p.levelOffset else LEVELS_PER_RECORD)
    && p.partCount == (p.totalLevelCount + LEVELS_PER_RECORD - 1) / LEVELS_PER_RECORD
                      + (if p.totalLevelCount == 0 then 1 else 0)
  }

  /** The first row opens the bracket and pins its clocks. */
  function Begin(r: Record): Option<Transaction> {
    if r.payload.DepthRow? && r.payload.chunk.transactionPartIndex == 0 && r.payload.chunk.partIndex == 0 then
      Some(Open(r.frameSequence, r.shardSequence, r.receiveMonotonicNs, r.receiveRealtimeNs,
                r.payload.chunk.transactionPartCount, DepthHasCoverage in r.flags, None,
                0, 0, 0, 0, 0, 0, 0, false))
    else None
  }

  function AdvanceCoverage(r: Record, t: Transaction): Option<Transaction>
    requires t.Open? && r.payload.CoverageRow?
  {
    var c := r.payload.part;
    if || !t.awaitingCoverage || c.transactionPartCount != t.nativeParts || c.partIndex != t.nextCoverage
       || t.last.None? || !SameOwner(r, t.last.value)
       || r.eventSequence != t.last.value.eventSequence
       || r.exchangeTimestampNs != t.last.value.exchangeTimestampNs then None
    else
      var total := if t.nextCoverage == 0 then c.totalCoverageCount else t.totalCoverage;
      var parts := if t.nextCoverage == 0 then c.partCount else t.coverageParts;
      if c.totalCoverageCount != total || c.partCount != parts then None
      else if t.nextCoverage + 1 == parts then
        if DepthTransactionEnd in r.flags then Some(Idle) else None
      else Some(t.(nextCoverage := t.nextCoverage + 1, totalCoverage := total, coverageParts := parts))
  }

  function AdvanceChunk(r: Record, t: Transaction): Option<Transaction>
    requires t.Open? && r.payload.DepthRow?
  {
    var p := r.payload.chunk;
    if || t.awaitingCoverage
       || p.transactionPartCount == 0 || !p.withinPartLimit
       || p.transactionPartCount != t.nativeParts || p.transactionPartIndex != t.nextNative
       || p.partIndex != t.nextChunk || !ChunkGeometry(p) then None
    else if t.nextChunk != 0 && !(t.last.Some? && t.last.value.payload.DepthRow?
                                  && ContinuesChunk(r, p, t.last.value, t.last.value.payload.chunk)) then None
    else
      var total := if t.nextChunk == 0 then p.totalLevelCount else t.totalLevels;
      var parts := if t.nextChunk == 0 then p.partCount else t.chunkParts;
      var finalRow := p.partIndex + 1 == p.partCount && p.transactionPartIndex + 1 == p.transactionPartCount;
      if p.totalLevelCount != total || p.partCount != parts then None
      else if (DepthTransactionEnd in r.flags) != (DepthHasCoverage !in r.flags && finalRow) then None
      else
        var u := t.(last := Some(r), totalLevels := total, chunkParts := parts);
        if t.nextChunk + 1 != parts then Some(u.(nextChunk := t.nextChunk + 1))
        else if t.nextNative + 1 != t.nativeParts then Some(u.(nextChunk := 0, nextNative := t.nextNative + 1))
        else if t.hasCoverage then Some(u.(nextChunk := 0, nextNative := t.nextNative + 1, awaitingCoverage := true))
        else Some(Idle)
  }

  /** One row of a shard; None is a grammar violation. */
  function Advance(r: Record, t: Transaction): Option<Transaction> {
    if r.channel != Depth then (if t.Idle? then Some(t) else None)
    else if !ValidRecord(r) then None
    else
      var begun := if t.Idle? then Begin(r) else Some(t);
      if begun.None? then None
      else
        var u := begun.value;
        if || r.frameSequence != u.frameSequence || r.receiveMonotonicNs != u.receiveMonotonicNs
           || r.receiveRealtimeNs != u.receiveRealtimeNs || (DepthHasCoverage in r.flags) != u.hasCoverage
           || (u.last.Some? && !SameOwner(r, u.last.value)) then None
        else if DepthCoverage in r.flags then AdvanceCoverage(r, u)
        else AdvanceChunk(r, u)
  }

  /** An open transaction keeps the identity its first row gave it. */
  lemma {:induction false} AdvanceKeepsIdentity(r: Record, t: Transaction)
    requires Advance(r, t).Some? && Advance(r, t).value.Open?
    ensures var u := Advance(r, t).value;
            if t.Open? then u.firstShardSequence == t.firstShardSequence && u.receiveMonotonicNs == t.receiveMonotonicNs
            else u.firstShardSequence == r.shardSequence && u.receiveMonotonicNs == r.receiveMonotonicNs
    ensures Advance(r, t).value.receiveMonotonicNs == r.receiveMonotonicNs
  {
  }

  /** A shard's rows in order, from between transactions. */
  function Replay(rs: seq<Record>): Option<Transaction>
    decreases |rs|
  {
    if rs == [] then Some(Idle)
    else
      var t := Replay(rs[..|rs| - 1]);
      if t.None? then None else Advance(rs[|rs| - 1], t.value)
  }

  lemma {:induction false} ReplayAppend(rs: seq<Record>, r: Record)
    ensures Replay(rs + [r]) == if Replay(rs).None? then None else Advance(r, Replay(rs).value)
  {
    assert (rs + [r])[..|rs + [r]| - 1] == rs;
  }

  lemma {:induction false} ReplayPrefix(rs: seq<Record>, n: nat)
    requires n <= |rs| && Replay(rs).Some?
    ensures Replay(rs[..n]).Some?
    decreases |rs|
  {
    if n == |rs| {
      assert rs[..n] == rs;
    } else {
      ReplayPrefix(rs[..|rs| - 1], n);
      assert rs[..|rs| - 1][..n] == rs[..n];
    }
  }

  ghost predicate Sorted(rs: seq<Record>) {
    forall i, j :: 0 <= i < j < |rs| ==>
      rs[i].shardSequence < rs[j].shardSequence && rs[i].receiveMonotonicNs <= rs[j].receiveMonotonicNs
  }

  /** The open transaction is exactly the tail of the rows from its first row on: every row at or
      after that sequence carries its receive time, and at least one such row exists. */
  ghost predicate IsTail(rs: seq<Record>, first: int, time: int) {
    && rs != [] && first <= rs[|rs| - 1].shardSequence
    && (forall i :: 0 <= i < |rs| && rs[i].shardSequence >= first ==> rs[i].receiveMonotonicNs == time)
    && exists i :: 0 <= i < |rs| && rs[i].shardSequence == first
  }

  lemma {:induction false} TailGrows(rs: seq<Record>, m: nat, first: int, time: int)
    requires Sorted(rs) && |rs| == m + 1 && IsTail(rs[..m], first, time) && rs[m].receiveMonotonicNs == time
    ensures IsTail(rs, first, time)
  {
    var i :| 0 <= i < m && rs[..m][i].shardSequence == first;
    assert rs[i].shardSequence == first;
    forall j | 0 <= j < |rs| && rs[j].shardSequence >= first
      ensures rs[j].receiveMonotonicNs == time
    {
      if j < m { assert rs[..m][j] == rs[j]; }
    }
  }

  lemma {:induction false} TailStarts(rs: seq<Record>, m: nat)
    requires Sorted(rs) && |rs| == m + 1
    ensures IsTail(rs, rs[m].shardSequence, rs[m].receiveMonotonicNs)
  {
  }

  lemma {:induction false} OpenTail(rs: seq<Record>)
    requires Sorted(rs) && Replay(rs).Some? && Replay(rs).value.Open?
    ensures IsTail(rs, Replay(rs).value.firstShardSequence, Replay(rs).value.receiveMonotonicNs)
    decreases |rs|
  {
    var n := |rs| - 1;
    var before := Replay(rs[..n]).value;
    AdvanceKeepsIdentity(rs[n], before);
    if before.Open? {
      OpenTail(rs[..n]);
      TailGrows(rs, n, before.firstShardSequence, before.receiveMonotonicNs);
    } else {
      TailStarts(rs, n);
    }
  }

  /** A receive-time cut never falls inside a transaction: the rows before it replay to Idle. */
  lemma {:induction false} TimeCutIsIdle(rs: seq<Record>, n: nat)
    requires Sorted(rs) && Replay(rs).Some?
    requires 0 < n < |rs| && rs[n - 1].receiveMonotonicNs < rs[n].receiveMonotonicNs
    ensures Replay(rs[..n]) == Some(Idle)
  {
    ReplayPrefix(rs, n);
    ReplayPrefix(rs, n + 1);
    assert rs[..n + 1][..n] == rs[..n];
    var t := Replay(rs[..n]).value;
    if t.Open? {
      OpenTail(rs[..n]);
    }
  }

  /** Rows behind an idle point replay as if they were the whole stream. */
  lemma {:induction false} ReplaySuffix(rs: seq<Record>, n: nat)
    requires n <= |rs| && Replay(rs).Some? && Replay(rs[..n]) == Some(Idle)
    ensures Replay(rs[n..]) == Replay(rs)
    decreases |rs|
  {
    if n == |rs| {
      assert rs[..n] == rs;
    } else {
      var m := |rs| - 1;
      assert rs[..m][..n] == rs[..n];
      ReplaySuffix(rs[..m], n);
      assert rs[n..][..|rs[n..]| - 1] == rs[..m][n..];
    }
  }
}
