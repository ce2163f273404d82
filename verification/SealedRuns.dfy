/** Writer to reader, end to end: when the sealed reader opens what a run has sealed, and that a request
    then gets exactly what it asks for.  A source may span shards; the reader replays its rows in merge
    order, the writer in the order they were appended. */
module SealedRuns {
  import opened Records
  import opened Merge
  import opened WriterRuns
  import opened Storage
  import opened Formats
  import opened Writer
  import opened SealedAcceptance
  import Index
  import opened WriterAnswers
  import SR = SealedReader
  import DT = DepthTransaction
  import SS = SourceState
  import G = Generations

  // --- Lanes along a row sequence -----------------------------------------------------------------------

  ghost predicate TransactionAt(x: SR.Lanes, done: seq<Record>, n: int)
    requires 0 <= n < |x.transactions|
  {
    DT.Replay(OfShard(done, n)) == Some(x.transactions[n])
  }

  ghost predicate SourceLane(sources: seq<Source>, x: SR.Lanes, done: seq<Record>, i: int)
    requires 0 <= i < |x.states| == |sources| && SS.AllValid(done)
  {
    OfSourceValid(done, i + 1);
    SS.Replay(SS.Initial(sources[i]), OfSource(done, i + 1), NativeRebaseSnapshot) == Some(x.states[i])
  }

  /** The lanes are where the rows done so far lead. */
  ghost predicate LanesAt(sources: seq<Source>, shards: nat, x: SR.Lanes, done: seq<Record>) {
    && |x.transactions| == shards && |x.states| == |sources| && SS.AllValid(done)
    && (forall n {:trigger TransactionAt(x, done, n)} :: 0 <= n < shards ==> TransactionAt(x, done, n))
    && (forall i {:trigger SourceLane(sources, x, done, i)} :: 0 <= i < |sources| ==> SourceLane(sources, x, done, i))
  }

  ghost predicate ShardReplays(rows: seq<Record>, n: int)
    requires 0 <= n
  {
    DT.Replay(OfShard(rows, n)).Some?
  }

  ghost predicate SourceReplays(sources: seq<Source>, rows: seq<Record>, i: int)
    requires 0 <= i < |sources| && SS.AllValid(rows)
  {
    OfSourceValid(rows, i + 1);
    SS.Replay(SS.Initial(sources[i]), OfSource(rows, i + 1), NativeRebaseSnapshot).Some?
  }

  /** Every shard's rows replay. */
  ghost predicate ShardsReplay(shards: nat, rows: seq<Record>) {
    forall n {:trigger ShardReplays(rows, n)} :: 0 <= n < shards ==> ShardReplays(rows, n)
  }

  /** Every source's rows, in the order of `rows`, replay. */
  ghost predicate SourcesReplay(sources: seq<Source>, rows: seq<Record>)
    requires SS.AllValid(rows)
  {
    forall i {:trigger SourceReplays(sources, rows, i)} :: 0 <= i < |sources| ==> SourceReplays(sources, rows, i)
  }

  ghost predicate InRange(sources: nat, shards: nat, rows: seq<Record>) {
    SS.AllValid(rows) && forall i :: 0 <= i < |rows| ==> rows[i].shardIndex < shards && 0 < rows[i].sourceId <= sources
  }

  lemma {:induction false} OfSourceConcat(a: seq<Record>, b: seq<Record>, id: nat)
    ensures OfSource(a + b, id) == OfSource(a, id) + OfSource(b, id)
    decreases |b|
  {
    if b == [] {
      assert a + b == a;
    } else {
      var m := |b| - 1;
      OfSourceConcat(a, b[..m], id);
      assert (a + b)[..|a + b| - 1] == a + b[..m];
    }
  }

  lemma {:induction false} ShardAdmits(done: seq<Record>, r: Record, rest: seq<Record>, t: DT.Transaction)
    requires DT.Replay(OfShard(done + [r] + rest, r.shardIndex)).Some?
    requires DT.Replay(OfShard(done, r.shardIndex)) == Some(t)
    ensures DT.Advance(r, t).Some? && DT.Replay(OfShard(done + [r], r.shardIndex)) == DT.Advance(r, t)
  {
    var n := r.shardIndex;
    OfShardAppend(done, r, n);
    OfShardConcat(done + [r], rest, n);
    var now, all := OfShard(done + [r], n), OfShard(done + [r] + rest, n);
    DT.ReplayPrefix(all, |now|);
    assert all[..|now|] == now;
    DT.ReplayAppend(OfShard(done, n), r);
  }

  /** A source's lane accepts a row exactly when the source's rows up to it replay. */
  lemma {:induction false} SourceAdmits(x: Source, done: seq<Record>, r: Record, state: SS.State)
    requires SS.AllValid(done) && ValidRecord(r) && SS.AllValid(OfSource(done, r.sourceId))
    requires SS.Replay(SS.Initial(x), OfSource(done, r.sourceId), NativeRebaseSnapshot) == Some(state)
    ensures SS.AllValid(OfSource(done + [r], r.sourceId))
    ensures SS.Replay(SS.Initial(x), OfSource(done + [r], r.sourceId), NativeRebaseSnapshot) == SS.Advance(r, state,
            NativeRebaseSnapshot(r))
  {
    OfSourceAppend(done, r, r.sourceId);
    SS.ReplayAppend(SS.Initial(x), OfSource(done, r.sourceId), r, NativeRebaseSnapshot);
  }

  lemma {:induction false} ShardAdmitted(
      sources: seq<Source>, shards: nat, x: SR.Lanes, done: seq<Record>, r: Record, rest: seq<Record>)
    requires LanesAt(sources, shards, x, done) && ShardsReplay(shards, done + [r] + rest) && r.shardIndex < shards
    ensures DT.Advance(r, x.transactions[r.shardIndex]).Some?
    ensures DT.Replay(OfShard(done + [r], r.shardIndex)) == DT.Advance(r, x.transactions[r.shardIndex])
  {
    assert ShardReplays(done + [r] + rest, r.shardIndex) && TransactionAt(x, done, r.shardIndex);
    ShardAdmits(done, r, rest, x.transactions[r.shardIndex]);
  }

  lemma {:induction false} SourceAdmitted(sources: seq<Source>, shards: nat, x: SR.Lanes, done: seq<Record>, r: Record)
    requires LanesAt(sources, shards, x, done) && ValidRecord(r) && 0 < r.sourceId <= |sources|
    ensures SS.AllValid(OfSource(done + [r], r.sourceId))
    ensures SS.Replay(SS.Initial(sources[r.sourceId - 1]), OfSource(done + [r], r.sourceId), NativeRebaseSnapshot)
            == SS.Advance(r, x.states[r.sourceId - 1], NativeRebaseSnapshot(r))
  {
    assert SourceLane(sources, x, done, r.sourceId - 1);
    OfSourceValid(done, r.sourceId);
    SourceAdmits(sources[r.sourceId - 1], done, r, x.states[r.sourceId - 1]);
  }

  /** A row between replaying shards is admitted exactly when its source's rows up to it replay, and
      then the lanes move on with it. */
  lemma {:induction false} AdmittedExactly(
      sources: seq<Source>, shards: nat, x: SR.Lanes, done: seq<Record>, r: Record, rest: seq<Record>)
    requires LanesAt(sources, shards, x, done) && ShardsReplay(shards, done + [r] + rest)
    requires ValidRecord(r) && r.shardIndex < shards && 0 < r.sourceId <= |sources| && SS.AllValid(done + [r])
    ensures SR.Admit(r, x).Some? <==> SourceReplays(sources, done + [r], r.sourceId - 1)
    ensures SR.Admit(r, x).Some? ==> LanesAt(sources, shards, SR.Admit(r, x).value, done + [r])
  {
    ShardAdmitted(sources, shards, x, done, r, rest);
    SourceAdmitted(sources, shards, x, done, r);
    if SS.Advance(r, x.states[r.sourceId - 1], NativeRebaseSnapshot(r)).Some? {
      LanesMove(sources, shards, x, done, r, DT.Advance(r, x.transactions[r.shardIndex]).value,
                SS.Advance(r, x.states[r.sourceId - 1], NativeRebaseSnapshot(r)).value);
    }
  }

  /** Another row moves the transaction of its own shard only. */
  lemma {:induction false} TransactionsMove(shards: nat, x: SR.Lanes, y: SR.Lanes, done: seq<Record>, r: Record)
    requires |x.transactions| == |y.transactions| == shards && r.shardIndex < shards
    requires forall n {:trigger TransactionAt(x, done, n)} :: 0 <= n < shards ==> TransactionAt(x, done, n)
    requires DT.Replay(OfShard(done + [r], r.shardIndex)) == Some(y.transactions[r.shardIndex])
    requires forall n :: 0 <= n < shards && n != r.shardIndex ==> y.transactions[n] == x.transactions[n]
    ensures forall n {:trigger TransactionAt(y, done + [r], n)} :: 0 <= n < shards ==> TransactionAt(y, done + [r], n)
  {
    forall n | 0 <= n < shards
      ensures TransactionAt(y, done + [r], n)
    {
      if n != r.shardIndex {
        assert TransactionAt(x, done, n);
        OtherShard(done, r, n);
      }
    }
  }

  lemma {:induction false} OtherShard(done: seq<Record>, r: Record, n: nat)
    requires r.shardIndex != n
    ensures OfShard(done + [r], n) == OfShard(done, n)
  {
    OfShardAppend(done, r, n);
    assert OfShard(done, n) + [] == OfShard(done, n);
  }

  lemma {:induction false} OtherSource(done: seq<Record>, r: Record, id: nat)
    requires r.sourceId != id
    ensures OfSource(done + [r], id) == OfSource(done, id)
  {
    OfSourceAppend(done, r, id);
    assert OfSource(done, id) + [] == OfSource(done, id);
  }

  /** Another row moves the lane of its own source only. */
  lemma {:induction false} SourcesMove(sources: seq<Source>, x: SR.Lanes, y: SR.Lanes, done: seq<Record>, r: Record)
    requires |x.states| == |y.states| == |sources| && 0 < r.sourceId <= |sources| && SS.AllValid(done)
    requires SS.AllValid(done + [r])
    requires forall i {:trigger SourceLane(sources, x, done, i)} :: 0 <= i < |sources| ==>
              SourceLane(sources, x, done, i)
    requires SourceLane(sources, y, done + [r], r.sourceId - 1)
    requires forall i :: 0 <= i < |sources| && i != r.sourceId - 1 ==> y.states[i] == x.states[i]
    ensures forall i {:trigger SourceLane(sources, y, done + [r], i)} :: 0 <= i < |sources| ==>
            SourceLane(sources, y, done + [r], i)
  {
    forall i | 0 <= i < |sources|
      ensures SourceLane(sources, y, done + [r], i)
    {
      if i != r.sourceId - 1 {
        assert SourceLane(sources, x, done, i);
        OtherSource(done, r, i + 1);
      }
    }
  }

  lemma {:induction false} LanesMove(
      sources: seq<Source>, shards: nat, x: SR.Lanes, done: seq<Record>, r: Record, t: DT.Transaction, s: SS.State)
    requires LanesAt(sources, shards, x, done) && ValidRecord(r) && r.shardIndex < shards && 0 < r.sourceId <= |sources|
    requires SS.AllValid(OfSource(done + [r], r.sourceId))
    requires DT.Replay(OfShard(done + [r], r.shardIndex)) == Some(t)
    requires SS.Replay(SS.Initial(sources[r.sourceId - 1]), OfSource(done + [r], r.sourceId),
              NativeRebaseSnapshot) == Some(s)
    ensures LanesAt(sources, shards, SR.Lanes(x.transactions[r.shardIndex := t], x.states[r.sourceId - 1 := s]),
            done + [r])
  {
    var y := SR.Lanes(x.transactions[r.shardIndex := t], x.states[r.sourceId - 1 := s]);
    TransactionsMove(shards, x, y, done, r);
    SourcesMove(sources, x, y, done, r);
  }

  /** A request the rows give no cause to refuse. */
  ghost predicate Unhurt(rows: seq<Record>, q: SR.Request, choice: SR.Choice)
    requires choice.Chosen?
  {
    forall i :: 0 <= i < |rows| && SR.Selects(rows[i], q, choice) ==>
        GapBoundary !in rows[i].flags && !SR.Incompatible(rows[i], q)
  }

  /** What a source's state is after some rows. */
  ghost function StateAfter(sources: seq<Source>, rows: seq<Record>, i: nat): SS.State
    requires i < |sources| && SS.AllValid(rows)
  {
    OfSourceValid(rows, i + 1);
    var s := SS.Replay(SS.Initial(sources[i]), OfSource(rows, i + 1), NativeRebaseSnapshot);
    if s.Some? then s.value else SS.Initial(sources[i])
  }

  /** Market data that would be replayed: seen when its source is healthy enough for it. */
  ghost predicate Usable(sources: seq<Source>, done: seq<Record>, r: Record)
    requires SS.AllValid(done + [r])
  {
    && !IsSourceHealth(r) && Compatible(r)
    && (r.channel == Depth ==>
          && DepthCoverage !in r.flags && 0 < r.sourceId <= |sources|
          && Depth !in StateAfter(sources, done + [r], r.sourceId - 1).unhealthy
          && r.payload.DepthRow?
          && (r.payload.chunk.state == Healthy || r.payload.chunk.state == Partial || NativeRebaseSnapshot(r)))
  }

  /** The channels on which a selection shows usable market data. */
  ghost function Shown(
      sources: seq<Source>, done: seq<Record>, rows: seq<Record>, q: SR.Request, choice: SR.Choice): set<Channel>
    requires choice.Chosen? && SS.AllValid(done + rows)
    decreases |rows|
  {
    if rows == [] then {}
    else
      assert done + rows == done + [rows[0]] + rows[1..];
      assert SS.AllValid(done + [rows[0]]) by { ValidPrefix(done + [rows[0]], rows[1..]); }
      (if SR.Selects(rows[0], q, choice) && Usable(sources, done, rows[0]) then ChannelBit(rows[0].channel) else {})
      + Shown(sources, done + [rows[0]], rows[1..], q, choice)
  }

  lemma {:induction false} ValidPrefix(a: seq<Record>, b: seq<Record>)
    requires SS.AllValid(a + b)
    ensures SS.AllValid(a) && SS.AllValid(b)
  {
    forall i | 0 <= i < |a| ensures ValidRecord(a[i]) { assert (a + b)[i] == a[i]; }
    forall i | 0 <= i < |b| ensures ValidRecord(b[i]) { assert (a + b)[|a| + i] == b[i]; }
  }

  lemma {:induction false} LaneIsState(sources: seq<Source>, shards: nat, x: SR.Lanes, done: seq<Record>, r: Record)
    requires LanesAt(sources, shards, x, done + [r])
    ensures SR.ShowsMarket(r, x.states) == Usable(sources, done, r)
  {
    if 0 < r.sourceId <= |sources| { assert SourceLane(sources, x, done + [r], r.sourceId - 1); }
  }

  lemma {:induction false} LanesReplay(sources: seq<Source>, shards: nat, x: SR.Lanes, done: seq<Record>)
    requires LanesAt(sources, shards, x, done)
    ensures SourcesReplay(sources, done)
  {
    forall i | 0 <= i < |sources|
      ensures SourceReplays(sources, done, i)
    {
      assert SourceLane(sources, x, done, i);
    }
  }

  /** A source whose rows do not replay up to some point never will. */
  lemma {:induction false} StuckStays(sources: seq<Source>, done: seq<Record>, rest: seq<Record>, i: nat)
    requires i < |sources| && SS.AllValid(done) && SS.AllValid(done + rest) && SourceReplays(sources, done + rest, i)
    ensures SourceReplays(sources, done, i)
  {
    OfSourceConcat(done, rest, i + 1);
    OfSourceValid(done + rest, i + 1);
    var all, now := OfSource(done + rest, i + 1), OfSource(done, i + 1);
    SS.ReplayPrefix(SS.Initial(sources[i]), all, |now|, NativeRebaseSnapshot);
    assert all[..|now|] == now;
  }

  ghost predicate Passable(r: Record, q: SR.Request, choice: SR.Choice)
    requires choice.Chosen?
  {
    SR.Selects(r, q, choice) ==> GapBoundary !in r.flags && !SR.Incompatible(r, q)
  }

  lemma {:induction false} UnhurtSplits(r: Record, rest: seq<Record>, q: SR.Request, choice: SR.Choice)
    requires choice.Chosen?
    ensures Unhurt([r] + rest, q, choice) <==> Passable(r, q, choice) && Unhurt(rest, q, choice)
  {
    var rows := [r] + rest;
    if Unhurt(rows, q, choice) {
      assert rows[0] == r;
      forall i | 0 <= i < |rest| && SR.Selects(rest[i], q, choice)
        ensures GapBoundary !in rest[i].flags && !SR.Incompatible(rest[i], q)
      {
        assert rows[i + 1] == rest[i];
      }
    }
  }

  lemma {:induction false} PreflightStep(
      rows: seq<Record>, r: Record, rest: seq<Record>, x: SR.Lanes, q: SR.Request, choice: SR.Choice,
      present: set<Channel>)
    requires choice.Chosen? && rows == [r] + rest
    ensures var y := SR.Admit(r, x);
            SR.Preflight(rows, x, q, choice, present) ==
            if y.None? then SR.Refusal(CorruptData)
            else if !SR.Selects(r, q, choice) then SR.Preflight(rest, y.value, q, choice, present)
            else if GapBoundary in r.flags then SR.Refusal(CorruptData)
            else if SR.Incompatible(r, q) then SR.Refusal(Unimplemented)
            else SR.Preflight(rest, y.value, q, choice,
                              if SR.ShowsMarket(r, y.value.states) then present + ChannelBit(r.channel) else present)
  {
    assert rows[0] == r && rows[1..] == rest;
  }

  ghost predicate Surveyed(sources: seq<Source>, shards: nat, p: SR.Survey, all: seq<Record>, present: set<Channel>) {
    p.Survey? && LanesAt(sources, shards, p.lanes, all) && p.present == present
  }

  /** The dry run passes exactly when every source's rows replay in the order of the merge and nothing
      selected gives cause to refuse; it then has seen exactly the usable channels. */
  lemma {:induction false} PreflightExact(
      sources: seq<Source>, shards: nat, x: SR.Lanes, done: seq<Record>, rows: seq<Record>, q: SR.Request,
      choice: SR.Choice, present: set<Channel>)
    requires choice.Chosen? && LanesAt(sources, shards, x, done)
    requires InRange(|sources|, shards, done + rows) && ShardsReplay(shards, done + rows)
    ensures var p := SR.Preflight(rows, x, q, choice, present);
            && (p.Survey? <==> SourcesReplay(sources, done + rows) && Unhurt(rows, q, choice))
            && (p.Survey? ==>
                 Surveyed(sources, shards, p, done + rows, present + Shown(sources, done, rows, q, choice)))
    decreases |rows|
  {
    if rows == [] {
      assert done + rows == done;
      LanesReplay(sources, shards, x, done);
      assert present + {} == present;
    } else {
      var r, rest := rows[0], rows[1..];
      assert rows == [r] + rest;
      Regroup(done, r, rest, rows);
      assert (done + rows)[|done|] == r;
      ValidPrefix(done + [r], rest);
      AdmittedExactly(sources, shards, x, done, r, rest);
      PreflightStep(rows, r, rest, x, q, choice, present);
      UnhurtSplits(r, rest, q, choice);
      if SR.Admit(r, x).None? {
        NotAdmitted(sources, done + [r], rest, r.sourceId - 1);
      } else if Passable(r, q, choice) {
        var y := SR.Admit(r, x).value;
        LaneIsState(sources, shards, y, done, r);
        var bit := if SR.Selects(r, q, choice) && Usable(sources, done, r) then ChannelBit(r.channel) else {};
        PreflightExact(sources, shards, y, done + [r], rest, q, choice, present + bit);
        assert present + {} == present;
        assert present + bit + Shown(sources, done + [r], rest, q, choice) == present +
            (bit + Shown(sources, done + [r], rest, q, choice));
      }
    }
  }

  lemma {:induction false} Regroup(done: seq<Record>, r: Record, rest: seq<Record>, rows: seq<Record>)
    requires rows == [r] + rest
    ensures done + rows == done + [r] + rest
  {
  }

  lemma {:induction false} NotAdmitted(sources: seq<Source>, done: seq<Record>, rest: seq<Record>, i: nat)
    requires i < |sources| && SS.AllValid(done) && SS.AllValid(done + rest) && !SourceReplays(sources, done, i)
    ensures !SourcesReplay(sources, done + rest)
  {
    if SourceReplays(sources, done + rest, i) { StuckStays(sources, done, rest, i); }
  }

  // === From writer to reader =================================================================================

  // --- The merge of a history ---------------------------------------------------------------------------

  /** The rows of each shard. */
  ghost function ByShard(H: seq<Record>, k: nat): (v: seq<seq<Record>>)
    ensures |v| == k && StreamsOf(v, H)
    decreases k
  {
    if k == 0 then [] else ByShard(H, k - 1) + [OfShard(H, k - 1)]
  }

  lemma {:induction false} StreamsUnique(streams: seq<seq<Record>>, H: seq<Record>)
    requires StreamsOf(streams, H)
    ensures streams == ByShard(H, |streams|)
  {
  }

  /** What the sealed reader goes through: the rows of all shards in merge order. */
  ghost function MergeOf(H: seq<Record>, shards: nat): seq<Record> { Merged(ByShard(H, shards)) }

  /** Every row of the merge is a row of the history. */
  lemma {:induction false} MergedFromHistory(H: seq<Record>, shards: nat, i: nat)
    requires i < |MergeOf(H, shards)|
    ensures MergeOf(H, shards)[i] in H && MergeOf(H, shards)[i].shardIndex < shards
  {
    var streams := ByShard(H, shards);
    var r := Merged(streams)[i];
    MergedComesFrom(streams, i);
    var n, j :| 0 <= n < |streams| && 0 <= j < |streams[n]| && streams[n][j] == r;
    OfShardMember(H, n, r);
    assert r in OfShard(H, n);
  }

  /** Every row of the history is in the merge. */
  lemma {:induction false} HistoryInMerge(H: seq<Record>, shards: nat, r: Record)
    requires Sharded(ByShard(H, shards)) && r in H && r.shardIndex < shards
    ensures r in MergeOf(H, shards)
  {
    MergedKeepsShards(ByShard(H, shards), r.shardIndex);
    OfShardMember(H, r.shardIndex, r);
    OfShardMember(MergeOf(H, shards), r.shardIndex, r);
  }

  lemma {:induction false} InSource(rs: seq<Record>, r: Record, id: nat)
    ensures r in OfSource(rs, id) <==> r in rs && r.sourceId == id
    decreases |rs|
  {
    if rs != [] {
      var m := |rs| - 1;
      InSource(rs[..m], r, id);
      assert rs == rs[..m] + [rs[m]];
    }
  }

  // --- Sources that span shards -------------------------------------------------------------------------

  /** The rows of each source were appended in merge order. */
  ghost predicate InMergeOrder(H: seq<Record>) {
    forall i, j :: 0 <= i < j < |H| && H[i].sourceId == H[j].sourceId ==> Before(H[i], H[j])
  }

  lemma {:induction false} OrderedSource(rs: seq<Record>, id: nat)
    requires forall i, j :: 0 <= i < j < |rs| && rs[i].sourceId == rs[j].sourceId ==> Before(rs[i], rs[j])
    ensures Ordered(OfSource(rs, id))
    decreases |rs|
  {
    if rs != [] {
      var m := |rs| - 1;
      var front := OfSource(rs[..m], id);
      OrderedSource(rs[..m], id);
      if rs[m].sourceId == id {
        forall i | 0 <= i < |front|
          ensures Before(front[i], rs[m])
        {
          InSource(rs[..m], front[i], id);
          var h :| 0 <= h < m && rs[..m][h] == front[i];
          assert rs[h] == front[i];
        }
      }
    }
  }

  lemma {:induction false} LeastFirst(a: seq<Record>, b: seq<Record>)
    requires Ordered(a) && Ordered(b) && a != [] && b != [] && a[0] in b && b[0] in a
    ensures a[0] == b[0]
  {
    var j :| 0 <= j < |b| && b[j] == a[0];
    var i :| 0 <= i < |a| && a[i] == b[0];
    assert j > 0 ==> Before(b[0], a[0]);
    assert i > 0 ==> Before(a[0], b[0]);
  }

  lemma {:induction false} TailMembers(a: seq<Record>, r: Record)
    requires Ordered(a) && a != []
    ensures r in a[1..] <==> r in a && r != a[0]
  {
    if r in a[1..] {
      var i :| 0 <= i < |a[1..]| && a[1..][i] == r;
      assert Before(a[0], a[i + 1]);
    }
    if r in a && r != a[0] {
      var i :| 0 <= i < |a| && a[i] == r;
      assert a[1..][i - 1] == r;
    }
  }

  lemma {:induction false} HeadIn(a: seq<Record>)
    ensures a != [] ==> a[0] in a
  {
  }

  /** Two strictly ordered sequences of the same rows are the same sequence. */
  lemma {:induction false} OrderedUnique(a: seq<Record>, b: seq<Record>)
    requires Ordered(a) && Ordered(b) && forall r :: r in a <==> r in b
    ensures a == b
    decreases |a|
  {
    if a == [] {
      HeadIn(b);
    } else {
      assert a[0] in a && a[0] in b;
      assert b[0] in b && b[0] in a;
      LeastFirst(a, b);
      forall r
        ensures r in a[1..] <==> r in b[1..]
      {
        TailMembers(a, r);
        TailMembers(b, r);
      }
      OrderedUnique(a[1..], b[1..]);
      assert a == [a[0]] + a[1..] && b == [b[0]] + b[1..];
    }
  }

  /** A source appended in merge order keeps its order in the merge. */
  lemma {:induction false} SourceOrderKept(H: seq<Record>, shards: nat, id: nat)
    requires Sharded(ByShard(H, shards)) && InMergeOrder(H) && forall i :: 0 <= i < |H| ==> H[i].shardIndex < shards
    ensures OfSource(MergeOf(H, shards), id) == OfSource(H, id)
  {
    var M := MergeOf(H, shards);
    MergedOrdered(ByShard(H, shards));
    OrderedSource(M, id);
    OrderedSource(H, id);
    forall r
      ensures r in OfSource(M, id) <==> r in OfSource(H, id)
    {
      InSource(M, r, id);
      InSource(H, r, id);
      if r in M {
        var i :| 0 <= i < |M| && M[i] == r;
        MergedFromHistory(H, shards, i);
      }
      if r in H {
        var i :| 0 <= i < |H| && H[i] == r;
        HistoryInMerge(H, shards, r);
      }
    }
    OrderedUnique(OfSource(M, id), OfSource(H, id));
  }

  // --- The merge of a sealed corpus ---------------------------------------------------------------------

  lemma {:induction false} SealedSharded(c: Codec, l: Layout, t: State, H: seq<Record>, reason: StopReason)
    requires SealedState(c, l, t, H, reason)
    ensures Sharded(ByShard(H, |t.segments|)) && InRange(|t.sources|, |t.segments|, H)
  {
    var streams := ByShard(H, |t.segments|);
    forall n | 0 <= n < |streams|
      ensures DT.Sorted(streams[n]) && forall i :: 0 <= i < |streams[n]| ==> streams[n][i].shardIndex == n
    {
      ClosedStream(c, l, t, H, reason, n);
    }
    forall i | 0 <= i < |H|
      ensures H[i].shardIndex < |streams| && ValidRecord(H[i]) && 0 < H[i].sourceId <= |t.sources|
    {
      assert RowInRange(t, H, i);
    }
  }

  lemma {:induction false} MergeInRange(sources: nat, H: seq<Record>, shards: nat)
    requires InRange(sources, shards, H)
    ensures InRange(sources, shards, MergeOf(H, shards))
  {
    var M := MergeOf(H, shards);
    forall i | 0 <= i < |M|
      ensures ValidRecord(M[i]) && M[i].shardIndex < shards && 0 < M[i].sourceId <= sources
    {
      MergedFromHistory(H, shards, i);
      var g :| 0 <= g < |H| && H[g] == M[i];
    }
  }

  lemma {:induction false} MergeShards(c: Codec, l: Layout, t: State, H: seq<Record>, reason: StopReason)
    requires SealedState(c, l, t, H, reason) && Sharded(ByShard(H, |t.segments|))
    ensures ShardsReplay(|t.segments|, MergeOf(H, |t.segments|))
    ensures forall n :: 0 <= n < |t.segments| ==> DT.Replay(OfShard(MergeOf(H, |t.segments|), n)) == Some(DT.Idle)
  {
    var M := MergeOf(H, |t.segments|);
    forall n | 0 <= n < |t.segments|
      ensures ShardReplays(M, n) && DT.Replay(OfShard(M, n)) == Some(DT.Idle)
    {
      MergedKeepsShards(ByShard(H, |t.segments|), n);
      ClosedStream(c, l, t, H, reason, n);
    }
  }

  /** Every source's rows replay in merge order. */
  ghost predicate MergeReplays(t: State, H: seq<Record>) {
    InRange(|t.sources|, |t.segments|, MergeOf(H, |t.segments|)) && SourcesReplay(t.sources, MergeOf(H, |t.segments|))
  }

  lemma {:induction false} OrderReplays(t: State, H: seq<Record>, M: seq<Record>)
    requires |t.sources| == |t.sourceStates| && SS.AllValid(M)
    requires forall i :: 0 <= i < |t.sources| ==> SourceAt(t, H, i)
    requires forall id :: 1 <= id <= |t.sources| ==> OfSource(M, id) == OfSource(H, id)
    ensures SourcesReplay(t.sources, M)
  {
    forall i | 0 <= i < |t.sources|
      ensures SourceReplays(t.sources, M, i)
    {
      assert SourceAt(t, H, i);
      SourceReplaysMerged(t, H, M, i);
    }
  }

  /** What the writer accepted in merge order the reader accepts. */
  lemma {:induction false} InOrderReplays(c: Codec, l: Layout, t: State, H: seq<Record>, reason: StopReason)
    requires SealedState(c, l, t, H, reason) && InMergeOrder(H)
    ensures MergeReplays(t, H)
  {
    var M := MergeOf(H, |t.segments|);
    SealedSharded(c, l, t, H, reason);
    MergeInRange(|t.sources|, H, |t.segments|);
    SourcesFollow(c, l, t, H, reason);
    forall id | 1 <= id <= |t.sources|
      ensures OfSource(M, id) == OfSource(H, id)
    {
      SourceOrderKept(H, |t.segments|, id);
    }
    OrderReplays(t, H, M);
  }

  lemma {:induction false} SourcesFollow(c: Codec, l: Layout, t: State, H: seq<Record>, reason: StopReason)
    requires SealedState(c, l, t, H, reason)
    ensures |t.sources| == |t.sourceStates| && forall i :: 0 <= i < |t.sources| ==> SourceAt(t, H, i)
  {
  }

  lemma {:induction false} SourceReplaysMerged(t: State, H: seq<Record>, merged: seq<Record>, i: nat)
    requires |t.sources| == |t.sourceStates| && i < |t.sources| && SourceAt(t, H, i) && SS.AllValid(merged)
    requires OfSource(merged, i + 1) == OfSource(H, i + 1)
    ensures SourceReplays(t.sources, merged, i)
  {
    SS.WriterReaderSimulation(SS.Initial(t.sources[i]), SS.Initial(t.sources[i]), OfSource(H, i + 1),
        NativeRebaseSnapshot);
  }

  lemma {:induction false} StartsAtNothing(a: SR.Archive)
    ensures LanesAt(a.sources, a.manifest.shardCount, SR.StartLanes(a), [])
  {
    var x := SR.StartLanes(a);
    forall n | 0 <= n < a.manifest.shardCount
      ensures TransactionAt(x, [], n)
    {
    }
    forall i | 0 <= i < |a.sources|
      ensures SourceLane(a.sources, x, [], i)
    {
    }
  }

  lemma {:induction false} UnhurtMerged(H: seq<Record>, shards: nat, q: SR.Request, choice: SR.Choice)
    requires choice.Chosen? && Sharded(ByShard(H, shards)) && forall i :: 0 <= i < |H| ==> H[i].shardIndex < shards
    ensures Unhurt(H, q, choice) <==> Unhurt(MergeOf(H, shards), q, choice)
  {
    var M := MergeOf(H, shards);
    forall i | 0 <= i < |M|
      ensures M[i] in H
    {
      MergedFromHistory(H, shards, i);
    }
    forall i | 0 <= i < |H|
      ensures H[i] in M
    {
      HistoryInMerge(H, shards, H[i]);
    }
    if Unhurt(H, q, choice) { UnhurtSame(H, M, q, choice); }
    if Unhurt(M, q, choice) { UnhurtSame(M, H, q, choice); }
  }

  lemma {:induction false} UnhurtSame(a: seq<Record>, b: seq<Record>, q: SR.Request, choice: SR.Choice)
    requires choice.Chosen? && (forall i :: 0 <= i < |b| ==> b[i] in a) && Unhurt(a, q, choice)
    ensures Unhurt(b, q, choice)
  {
    forall i | 0 <= i < |b| && SR.Selects(b[i], q, choice)
      ensures GapBoundary !in b[i].flags && !SR.Incompatible(b[i], q)
    {
      var g :| 0 <= g < |a| && a[g] == b[i];
    }
  }

  // --- When a sealed corpus opens -----------------------------------------------------------------------

  /** The channels on which the request would see usable market data. */
  ghost function Presented(t: State, H: seq<Record>, q: SR.Request, choice: SR.Choice): set<Channel>
    requires choice.Chosen? && SS.AllValid(MergeOf(H, |t.segments|))
  {
    assert [] + MergeOf(H, |t.segments|) == MergeOf(H, |t.segments|);
    Shown(t.sources, [], MergeOf(H, |t.segments|), q, choice)
  }

  lemma {:induction false} LanesIdle(sources: seq<Source>, shards: nat, x: SR.Lanes, rows: seq<Record>)
    requires LanesAt(sources, shards, x, rows)
    requires forall n :: 0 <= n < shards ==> DT.Replay(OfShard(rows, n)) == Some(DT.Idle)
    ensures SR.AllIdle(x.transactions)
  {
    forall n | 0 <= n < |x.transactions|
      ensures x.transactions[n].Idle?
    {
      assert TransactionAt(x, rows, n);
    }
  }

  /** The dry run passes exactly when every source's rows replay in merge order and nothing selected
      gives cause to refuse; it leaves every transaction closed. */
  lemma {:induction false} DryRunExact(
      c: Codec, l: Layout, t: State, H: seq<Record>, reason: StopReason, q: SR.Request, choice: SR.Choice)
    requires SealedState(c, l, t, H, reason) && choice.Chosen?
    ensures InRange(|t.sources|, |t.segments|, MergeOf(H, |t.segments|))
    ensures var p :=
            SR.Preflight(SR.RecordMerged(ByShard(H, |t.segments|)), SR.StartLanes(OnDisk(c, l, t)), q, choice, {});
            && (p.Survey? <==> MergeReplays(t, H) && Unhurt(H, q, choice))
            && (p.Survey? ==> SR.AllIdle(p.lanes.transactions) && p.present == Presented(t, H, q, choice))
  {
    var M := MergeOf(H, |t.segments|);
    SealedSharded(c, l, t, H, reason);
    MergeInRange(|t.sources|, H, |t.segments|);
    MergeShards(c, l, t, H, reason);
    UnhurtMerged(H, |t.segments|, q, choice);
    SR.MergesAgree(ByShard(H, |t.segments|));
    LanesStart(c, l, t, H, reason);
    MergeSurveyed(t.sources, |t.segments|, SR.StartLanes(OnDisk(c, l, t)), M, q, choice);
  }

  lemma {:induction false} LanesStart(c: Codec, l: Layout, t: State, H: seq<Record>, reason: StopReason)
    requires SealedState(c, l, t, H, reason)
    ensures LanesAt(t.sources, |t.segments|, SR.StartLanes(OnDisk(c, l, t)), [])
  {
    StartsAtNothing(OnDisk(c, l, t));
  }

  /** The dry run over rows whose shards all end between transactions. */
  lemma {:induction false} MergeSurveyed(
      sources: seq<Source>, shards: nat, x: SR.Lanes, M: seq<Record>, q: SR.Request, choice: SR.Choice)
    requires choice.Chosen? && LanesAt(sources, shards, x, []) && InRange(|sources|, shards, M)
    requires ShardsReplay(shards, M)
    requires forall n :: 0 <= n < shards ==> DT.Replay(OfShard(M, n)) == Some(DT.Idle)
    ensures [] + M == M
    ensures var p := SR.Preflight(M, x, q, choice, {});
            && (p.Survey? <==> SourcesReplay(sources, M) && Unhurt(M, q, choice))
            && (p.Survey? ==> SR.AllIdle(p.lanes.transactions) && p.present == Shown(sources, [], M, q, choice))
  {
    assert [] + M == M;
    PreflightExact(sources, shards, x, [], M, q, choice, {});
    var p := SR.Preflight(M, x, q, choice, {});
    if p.Survey? {
      LanesIdle(sources, shards, p.lanes, M);
      assert {} + Shown(sources, [], M, q, choice) == Shown(sources, [], M, q, choice);
    }
  }

  /** What a request may ask of what was sealed. */
  ghost predicate Answerable(t: State, H: seq<Record>, q: SR.Request) {
    && SR.ValidRequest(q) && t.manifest.startedReceiveNs <= q.beginReceiveNs
    && q.endReceiveNs <= t.manifest.finalizedReceiveNs
    && SR.Choose(t.sources, q.selection).Chosen?
    && (forall i :: 0 <= i < |t.gaps| ==> !SR.Hurts(t.gaps[i], q, SR.Choose(t.sources, q.selection)))
    && Unhurt(H, q, SR.Choose(t.sources, q.selection))
  }

  ghost predicate Suffices(t: State, H: seq<Record>, q: SR.Request) {
    && SR.Choose(t.sources, q.selection).Chosen? && SS.AllValid(MergeOf(H, |t.segments|))
    && q.required <= Presented(t, H, q, SR.Choose(t.sources, q.selection))
  }

  /** Exactly when the sealed reader opens the corpus for a request. */
  ghost predicate Opens(t: State, H: seq<Record>, q: SR.Request) {
    Answerable(t, H, q) && GenerationsCovered(t, H) && MergeReplays(t, H) && Suffices(t, H, q)
  }

  /** The rows of an archive open for a choice exactly when they replay, spare the request and show
      what it requires. */
  ghost predicate RowsDecide(c: Codec, a: SR.Archive, t: State, H: seq<Record>, q: SR.Request, choice: SR.Choice)
    requires choice.Chosen?
  {
    var o := SR.OpenRows(c, a, q, choice);
    && SS.AllValid(MergeOf(H, |t.segments|))
    && (o.Open? <==> MergeReplays(t, H) && Unhurt(H, q, choice) && q.required <= Presented(t, H, q, choice))
    && (o.Open? ==> o.choice == choice && o.streams == ByShard(H, |t.segments|))
  }

  lemma {:induction false} RowsOpenExactly(
      c: Codec, l: Layout, t: State, H: seq<Record>, reason: StopReason, q: SR.Request, choice: SR.Choice)
    requires Lawful(c) && SealedState(c, l, t, H, reason) && choice.Chosen?
    ensures RowsDecide(c, OnDisk(c, l, t), t, H, q, choice)
  {
    var a := OnDisk(c, l, t);
    ScanPasses(c, l, t, H, reason);
    StreamsUnique(SR.ScanSegments(c, a, a.manifest.segmentCount).streams, H);
    DryRunExact(c, l, t, H, reason, q, choice);
  }

  /** An archive opens when its index, gaps and rows allow it. */
  ghost predicate MetadataDecides(c: Codec, l: Layout, a: SR.Archive, q: SR.Request) {
    var o, choice := SR.OpenArchive(c, l, a, q), SR.Choose(a.sources, q.selection);
    && (o.Open? <==>
        && SR.ValidRequest(q) && a.manifest.startedReceiveNs <= q.beginReceiveNs
        && q.endReceiveNs <= a.manifest.finalizedReceiveNs && choice.Chosen? && SR.IndexHolds(a)
        && (forall i :: 0 <= i < |a.gaps| ==> !SR.Hurts(a.gaps[i], q, choice))
        && SR.OpenRows(c, a, q, choice).Open?)
    && (o.Open? ==> choice.Chosen? && o == SR.OpenRows(c, a, q, choice))
  }

  lemma {:induction false} MetadataPassed(c: Codec, l: Layout, a: SR.Archive, q: SR.Request)
    requires SR.CatalogHolds(c, l, a) && SR.TablesRead(c, l, a)
    requires forall i :: 0 <= i < |a.gaps| ==> SR.GapHolds(a.gaps[i], a)
    ensures MetadataDecides(c, l, a, q)
  {
  }

  lemma {:induction false} SealedMetadata(
      c: Codec, l: Layout, t: State, H: seq<Record>, reason: StopReason, q: SR.Request)
    requires SealedState(c, l, t, H, reason) && reason != Error
    ensures MetadataDecides(c, l, OnDisk(c, l, t), q)
  {
    TablesAccepted(c, l, t, H, reason);
    MetadataPassed(c, l, OnDisk(c, l, t), q);
  }

  /** What the reader makes of an archive, and what was sealed in it. */
  ghost predicate OpensAs(c: Codec, l: Layout, a: SR.Archive, t: State, H: seq<Record>, q: SR.Request) {
    var o := SR.OpenArchive(c, l, a, q);
    && (o.Open? <==> Opens(t, H, q))
    && (o.Open? ==> o.choice == SR.Choose(t.sources, q.selection) && o.streams == ByShard(H, |t.segments|))
  }

  lemma {:induction false} OpensTogether(c: Codec, l: Layout, a: SR.Archive, t: State, H: seq<Record>, q: SR.Request)
    requires a.sources == t.sources && a.gaps == t.gaps && a.manifest.startedReceiveNs == t.manifest.startedReceiveNs
    requires a.manifest.finalizedReceiveNs == t.manifest.finalizedReceiveNs
    requires MetadataDecides(c, l, a, q) && (SR.IndexHolds(a) <==> GenerationsCovered(t, H))
    requires var choice := SR.Choose(t.sources, q.selection); choice.Chosen? ==> RowsDecide(c, a, t, H, q, choice)
    ensures OpensAs(c, l, a, t, H, q)
  {
  }

  lemma {:induction false} OpensExactly(
      c: Codec, l: Layout, t: State, H: seq<Record>, reason: StopReason, q: SR.Request)
    requires Lawful(c) && SealedState(c, l, t, H, reason) && reason != Error
    ensures OpensAs(c, l, OnDisk(c, l, t), t, H, q)
  {
    SealedMetadata(c, l, t, H, reason, q);
    IndexAccepted(c, l, t, H, reason);
    var choice := SR.Choose(t.sources, q.selection);
    if choice.Chosen? { RowsOpenExactly(c, l, t, H, reason, q, choice); }
    OpensTogether(c, l, OnDisk(c, l, t), t, H, q);
  }

  /** Writer to reader, end to end: a run sealed with a reason other than Error opens for a request if
      and only if no generation predates its catalog entry, every source's rows replay in merge order,
      and the request is answerable and sees the channels it requires; draining it then yields exactly
      the selected rows of the merge of what the writer accepted. */
  lemma {:induction false} SealedRunReadsBack(
      c: Codec, l: Layout, g: Config, ms: seq<Moment>, steps: seq<Step>, i: nat, q: SR.Request)
    requires Lawful(c) && IsRun(c, l, g, ms, steps) && EndsSealed(c, l, ms, steps, i) && steps[i].reason != Error
    ensures var t, H := ms[i + 1].state, ms[i + 1].accepted;
            && |t.blocks| == |t.log|
            && var o := SR.OpenArchive(c, l, OnDisk(c, l, t), q);
               && (o.Open? <==> Opens(t, H, q))
               && (o.Open? ==> o.choice == SR.Choose(t.sources, q.selection) && o.choice.Chosen?)
               && (o.Open? ==> SR.Drain(SR.Start(OnDisk(c, l, t), o.streams), q, o.choice)
                               == Some(SR.Picked(MergeOf(H, |t.segments|), q, o.choice)))
  {
    var t, H, reason := ms[i + 1].state, ms[i + 1].accepted, steps[i].reason;
    RunSealed(c, l, g, ms, steps, i);
    OpensExactly(c, l, t, H, reason, q);
    if SR.OpenArchive(c, l, OnDisk(c, l, t), q).Open? { SR.SealedCursorCorrect(c, l, OnDisk(c, l, t), q); }
  }

  /** A producer that appends each source's rows in merge order need not look further: its lifecycles
      replay. */
  lemma {:induction false} InOrderOpens(
      c: Codec, l: Layout, g: Config, ms: seq<Moment>, steps: seq<Step>, i: nat, q: SR.Request)
    requires Lawful(c) && IsRun(c, l, g, ms, steps) && EndsSealed(c, l, ms, steps, i) && steps[i].reason != Error
    requires InMergeOrder(ms[i + 1].accepted)
    ensures var t, H := ms[i + 1].state, ms[i + 1].accepted;
            && |t.blocks| == |t.log|
            && (SR.OpenArchive(c, l, OnDisk(c, l, t), q).Open? <==>
                Answerable(t, H, q) && GenerationsCovered(t, H) && Suffices(t, H, q))
  {
    RunSealed(c, l, g, ms, steps, i);
    SealedRunReadsBack(c, l, g, ms, steps, i, q);
    InOrderReplays(c, l, ms[i + 1].state, ms[i + 1].accepted, steps[i].reason);
  }

  /** In particular, a producer that keeps each source to one shard. */
  lemma {:induction false} OneShardInOrder(c: Codec, l: Layout, t: State, H: seq<Record>, reason: StopReason)
    requires SealedState(c, l, t, H, reason)
    requires forall i, j :: 0 <= i < |H| && 0 <= j < |H| && H[i].sourceId == H[j].sourceId ==>
              H[i].shardIndex == H[j].shardIndex
    ensures InMergeOrder(H)
  {
    forall i, j | 0 <= i < j < |H| && H[i].sourceId == H[j].sourceId
      ensures Before(H[i], H[j])
    {
      assert RowInRange(t, H, i);
      ClosedStream(c, l, t, H, reason, H[i].shardIndex);
      SameShardOrder(H, i, j);
    }
  }

  lemma {:induction false} SameShardOrder(H: seq<Record>, i: nat, j: nat)
    requires i < j < |H| && H[i].shardIndex == H[j].shardIndex && DT.Sorted(OfShard(H, H[i].shardIndex))
    ensures Before(H[i], H[j])
  {
    var n := H[i].shardIndex;
    var a, b := H[..j], H[j..];
    assert H == a + b;
    OfShardConcat(a, b, n);
    assert a[i] == H[i] && b[0] == H[j];
    OfShardMember(a, n, H[i]);
    OfShardMember(b, n, H[j]);
    var x :| 0 <= x < |OfShard(a, n)| && OfShard(a, n)[x] == H[i];
    var y :| 0 <= y < |OfShard(b, n)| && OfShard(b, n)[y] == H[j];
    assert OfShard(H, n)[x] == H[i] && OfShard(H, n)[|OfShard(a, n)| + y] == H[j];
  }

  // --- Where it fails -----------------------------------------------------------------------------------

  const SPANNING: Source := Source(1, 1, true, {Trade}, {Trade}, {}, map[Trade := RecordedOnly], 7, 9, true)

  const TRADE: Record :=
    Record(1, 1, 1, 1, 1, 0, 1, 1, 10, 1, 1, Trade, {}, {}, MarketRow(0), true, true)

  const CHANGE: Record :=
    Record(1, 2, 0, 1, 0, 0, 1, 1, 5, 1, 0, SourceLifecycle, {TraderReplayCompatible, LifecycleFlag}, {},
           LifecycleRow(Lifecycle(1, 1, {Trade}, {Trade}, DirectoryChanged, None, Subscription,
                                  SPANNING.(initialGeneration := 2))), true, true)

  /** A source that spans two shards: its trade is appended first, then a directory change that was
      received earlier on another shard.  The writer's order replays, the merge order does not. */
  lemma {:induction false} SpanningSource()
    ensures ValidSource(SPANNING, 0) && ValidRecord(TRADE) && ValidRecord(CHANGE) && Before(CHANGE, TRADE)
    ensures var s := SS.Advance(TRADE, SS.Initial(SPANNING), false); s.Some? && SS.Advance(CHANGE, s.value, false).Some?
    ensures var s := SS.Advance(CHANGE, SS.Initial(SPANNING), false); s.Some? && SS.Advance(TRADE, s.value, false).None?
  {
    assert ChannelBit(Trade) == {Trade};
  }

  /** The writer's own checks let both rows in, in that order. */
  lemma {:induction false} SpanningJudged(s: State)
    requires Shape(s) && s.active && !s.replayAnchorFrozen && s.sources == [SPANNING]
    requires s.sourceStates == [SS.Initial(SPANNING)]
    requires |s.segments| >= 2 && s.depth[0].Idle? && s.depth[1].Idle?
    requires s.segments[0].previousSequence == 0 == s.segments[0].previousMonotonicNs
    requires s.segments[1].previousSequence == 0 == s.segments[1].previousMonotonicNs
    ensures var v := Judge(s, TRADE); v.Accept? && Judge(s.(sourceStates := [v.source]), CHANGE).Accept?
  {
    SpanningSource();
  }

  lemma {:induction false} SpanningMerge(shards: nat)
    requires shards >= 2 && Sharded(ByShard([TRADE, CHANGE], shards))
    ensures MergeOf([TRADE, CHANGE], shards) == [CHANGE, TRADE]
  {
    var H, M := [TRADE, CHANGE], MergeOf([TRADE, CHANGE], shards);
    MergedOrdered(ByShard(H, shards));
    assert H[0] == TRADE && H[1] == CHANGE;
    HistoryInMerge(H, shards, TRADE);
    HistoryInMerge(H, shards, CHANGE);
    forall r
      ensures r in M <==> r in [CHANGE, TRADE]
    {
      if r in M {
        var i :| 0 <= i < |M| && M[i] == r;
        MergedFromHistory(H, shards, i);
      }
    }
    OrderedUnique(M, [CHANGE, TRADE]);
  }

  lemma {:induction false} SecondRefused(s: SS.State, a: Record, b: Record, rebase: Record -> bool)
    requires ValidRecord(a) && ValidRecord(b) && !rebase(a) && !rebase(b)
    requires SS.Advance(a, s, false).Some? && SS.Advance(b, SS.Advance(a, s, false).value, false).None?
    ensures SS.AllValid([a, b]) && SS.Replay(s, [a, b], rebase).None?
  {
    assert [a, b][1..] == [b];
  }

  lemma {:induction false} BothOf(a: Record, b: Record, id: nat)
    requires a.sourceId == b.sourceId == id
    ensures OfSource([a, b], id) == [a, b]
  {
    OfSourceAppend([a], b, id);
    OfSourceAppend([], a, id);
    assert [] + [a] == [a] && [a] + [b] == [a, b];
  }

  lemma {:induction false} SpanningStuck()
    ensures SS.AllValid([CHANGE, TRADE]) && !SourcesReplay([SPANNING], [CHANGE, TRADE])
  {
    SpanningSource();
    SecondRefused(SS.Initial(SPANNING), CHANGE, TRADE, NativeRebaseSnapshot);
    BothOf(CHANGE, TRADE, 1);
    assert !SourceReplays([SPANNING], [CHANGE, TRADE], 0);
  }

  /** Every run that seals these two rows is refused by the sealed reader, whatever is asked of it. */
  lemma {:induction false} SpanningRunRefused(
      c: Codec, l: Layout, g: Config, ms: seq<Moment>, steps: seq<Step>, i: nat, q: SR.Request)
    requires Lawful(c) && IsRun(c, l, g, ms, steps) && EndsSealed(c, l, ms, steps, i) && steps[i].reason != Error
    requires ms[i + 1].state.sources == [SPANNING] && ms[i + 1].accepted == [TRADE, CHANGE]
    ensures |ms[i + 1].state.blocks| == |ms[i + 1].state.log|
    ensures SR.OpenArchive(c, l, OnDisk(c, l, ms[i + 1].state), q).NotOpen?
  {
    var t, H := ms[i + 1].state, ms[i + 1].accepted;
    RunSealed(c, l, g, ms, steps, i);
    SealedRunReadsBack(c, l, g, ms, steps, i, q);
    SealedSharded(c, l, t, H, steps[i].reason);
    assert H[0].shardIndex < |t.segments|;
    SpanningMerge(|t.segments|);
    SpanningStuck();
  }

  /** Every run that seals the early announcement of an absent source is refused likewise. */
  lemma {:induction false} EarlyRunRefused(
      c: Codec, l: Layout, g: Config, ms: seq<Moment>, steps: seq<Step>, i: nat, q: SR.Request)
    requires Lawful(c) && IsRun(c, l, g, ms, steps) && EndsSealed(c, l, ms, steps, i) && steps[i].reason != Error
    requires ms[i + 1].state.sources == [G.ABSENT] && G.ANNOUNCEMENT in ms[i + 1].accepted
    ensures |ms[i + 1].state.blocks| == |ms[i + 1].state.log|
    ensures SR.OpenArchive(c, l, OnDisk(c, l, ms[i + 1].state), q).NotOpen?
  {
    var t, H := ms[i + 1].state, ms[i + 1].accepted;
    SealedRunReadsBack(c, l, g, ms, steps, i, q);
    var h :| 0 <= h < |H| && H[h] == G.ANNOUNCEMENT;
    assert !RowCovered(t, H[h]);
  }

  // === What a request gets ===================================================================================

  // --- Which sources --------------------------------------------------------------------------------

  /** Source `id` of the catalog is asked for. */
  ghost predicate Asked(sources: seq<Source>, selection: SR.Selection, id: nat) {
    && 0 < id <= |sources|
    && match selection
       case Everything => true
       case Ids(ids) => ids == [] || id in ids
       case Named(matches) => matches(sources[id - 1])
  }

  /** Source k has the name. */
  ghost predicate MatchAt(sources: seq<Source>, matches: Source -> bool, k: int) {
    0 < k <= |sources| && matches(sources[k - 1])
  }

  /** Exactly one source has the name. */
  ghost predicate OneMatch(sources: seq<Source>, matches: Source -> bool) {
    && (exists k :: MatchAt(sources, matches, k))
    && forall j, k :: MatchAt(sources, matches, j) && MatchAt(sources, matches, k) ==> j == k
  }

  /** The request says which sources it means: listed ids exist and are listed once, a name is one
      source's. */
  ghost predicate Choosable(sources: seq<Source>, selection: SR.Selection) {
    match selection
    case Everything => true
    case Ids(ids) =>
      && (forall i :: 0 <= i < |ids| ==> 0 < ids[i] <= |sources|)
      && forall i, j :: 0 <= i < j < |ids| ==> ids[i] != ids[j]
    case Named(matches) => OneMatch(sources, matches)
  }

  lemma {:induction false} MatchingExact(sources: seq<Source>, matches: Source -> bool)
    ensures forall k: nat :: k in SR.Matching(sources, matches) <==> MatchAt(sources, matches, k)
    ensures Increasing(SR.Matching(sources, matches))
    decreases |sources|
  {
    if sources != [] {
      var m := |sources| - 1;
      MatchingExact(sources[..m], matches);
      var front := SR.Matching(sources[..m], matches);
      forall k: nat
        ensures k in SR.Matching(sources, matches) <==> MatchAt(sources, matches, k)
      {
        assert k in front <==> MatchAt(sources[..m], matches, k);
        if 0 < k <= m { assert sources[..m][k - 1] == sources[k - 1]; }
      }
      forall i | 0 <= i < |front|
        ensures front[i] <= m
      {
        assert front[i] in front;
      }
    }
  }

  ghost predicate Increasing(ids: seq<nat>) { forall i, j :: 0 <= i < j < |ids| ==> ids[i] < ids[j] }

  lemma {:induction false} OneMatchExact(sources: seq<Source>, matches: Source -> bool)
    ensures OneMatch(sources, matches) <==> |SR.Matching(sources, matches)| == 1
    ensures SR.Matching(sources, matches) == [] <==> forall k :: !MatchAt(sources, matches, k)
  {
    MatchingExact(sources, matches);
    var ids := SR.Matching(sources, matches);
    if |ids| > 1 {
      assert ids[0] in ids && ids[1] in ids && ids[0] < ids[1];
      assert MatchAt(sources, matches, ids[0]) && MatchAt(sources, matches, ids[1]);
    } else if |ids| == 1 {
      assert ids[0] in ids && MatchAt(sources, matches, ids[0]);
      forall j, k | MatchAt(sources, matches, j) && MatchAt(sources, matches, k)
        ensures j == k
      {
        assert j as nat in ids && k as nat in ids;
      }
    } else {
      forall k
        ensures !MatchAt(sources, matches, k)
      {
        if 0 < k { assert k as nat !in ids; }
      }
    }
  }

  /** Distinct ids of n sources are no more than n. */
  lemma {:induction false} FewIds(ids: seq<nat>, n: nat)
    requires forall i :: 0 <= i < |ids| ==> 0 < ids[i] <= n
    requires forall i, j :: 0 <= i < j < |ids| ==> ids[i] != ids[j]
    ensures |ids| <= n
  {
    var all := set i | 0 <= i < |ids| :: ids[i];
    SetOfDistinct(ids);
    assert all <= UpTo(n);
    Subset(all, UpTo(n));
  }

  lemma {:induction false} SetOfDistinct(ids: seq<nat>)
    requires forall i, j :: 0 <= i < j < |ids| ==> ids[i] != ids[j]
    ensures |(set i | 0 <= i < |ids| :: ids[i])| == |ids|
    decreases |ids|
  {
    if ids != [] {
      var m := |ids| - 1;
      SetOfDistinct(ids[..m]);
      var front := set i | 0 <= i < m :: ids[..m][i];
      assert (set i | 0 <= i < |ids| :: ids[i]) == front + {ids[m]};
      assert ids[m] !in front;
    }
  }

  lemma {:induction false} Subset(a: set<nat>, b: set<nat>)
    requires a <= b
    ensures |a| <= |b|
  {
    assert b == a + (b - a);
  }

  /** How an unclear request is refused. */
  ghost function Unclear(sources: seq<Source>, selection: SR.Selection): Status {
    if selection.Named? && forall k :: !MatchAt(sources, selection.matches, k) then OutOfRange else InvalidArgument
  }

  /** The reader's choice is made if and only if the request is clear, and then includes exactly the
      sources asked for; a name nobody has is out of range, anything else unclear is invalid. */
  lemma {:induction false} ChoiceExact(sources: seq<Source>, selection: SR.Selection)
    ensures var choice := SR.Choose(sources, selection);
            && (choice.Chosen? <==> Choosable(sources, selection))
            && (choice.Chosen? ==>
                  forall id: nat {:trigger Asked(sources, selection, id)} ::
                    0 < id <= |sources| ==> (SR.Includes(choice, id) <==> Asked(sources, selection, id)))
            && (choice.Unchosen? ==> choice.status == Unclear(sources, selection))
  {
    match selection
    case Everything =>
    case Ids(ids) =>
      if Choosable(sources, selection) { FewIds(ids, |sources|); }
    case Named(matches) =>
      MatchingExact(sources, matches);
      OneMatchExact(sources, matches);
      forall id: nat | 0 < id <= |sources|
        ensures Asked(sources, selection, id) <==> id in SR.Matching(sources, matches)
      {
        assert id in SR.Matching(sources, matches) <==> MatchAt(sources, matches, id);
      }
  }

  // --- Which rows -----------------------------------------------------------------------------------

  /** A row the request wants: of a source asked for, a lifecycle row or one of its channels, within
      its interval. */
  ghost predicate Wants(sources: seq<Source>, q: SR.Request, r: Record) {
    && Asked(sources, q.selection, r.sourceId) && (r.channel == SourceLifecycle || r.channel in q.channels)
    && q.beginReceiveNs <= r.receiveRealtimeNs < q.endReceiveNs
  }

  lemma {:induction false} SelectsExact(sources: seq<Source>, q: SR.Request, r: Record)
    requires SR.Choose(sources, q.selection).Chosen? && 0 < r.sourceId <= |sources|
    ensures SR.Selects(r, q, SR.Choose(sources, q.selection)) <==> Wants(sources, q, r)
  {
    ChoiceExact(sources, q.selection);
  }

  lemma {:induction false} PickedExact(rows: seq<Record>, q: SR.Request, choice: SR.Choice, r: Record)
    requires choice.Chosen?
    ensures r in SR.Picked(rows, q, choice) <==> r in rows && SR.Selects(r, q, choice)
    decreases |rows|
  {
    if rows != [] {
      PickedExact(rows[1..], q, choice, r);
      assert rows == [rows[0]] + rows[1..];
    }
  }

  lemma {:induction false} PickedOrdered(rows: seq<Record>, q: SR.Request, choice: SR.Choice)
    requires choice.Chosen? && Ordered(rows)
    ensures Ordered(SR.Picked(rows, q, choice))
    decreases |rows|
  {
    if rows != [] {
      var rest := SR.Picked(rows[1..], q, choice);
      PickedOrdered(rows[1..], q, choice);
      if SR.Selects(rows[0], q, choice) {
        forall i | 0 <= i < |rest|
          ensures Before(rows[0], rest[i])
        {
          PickedExact(rows[1..], q, choice, rest[i]);
          var k :| 0 <= k < |rows[1..]| && rows[1..][k] == rest[i];
          assert rows[k + 1] == rest[i];
        }
        OrderedCons(rows[0], rest);
      }
    }
  }

  lemma {:induction false} MergeMembers(H: seq<Record>, shards: nat, r: Record)
    requires Sharded(ByShard(H, shards)) && forall i :: 0 <= i < |H| ==> H[i].shardIndex < shards
    ensures r in MergeOf(H, shards) <==> r in H
  {
    if r in MergeOf(H, shards) {
      var i :| 0 <= i < |MergeOf(H, shards)| && MergeOf(H, shards)[i] == r;
      MergedFromHistory(H, shards, i);
    }
    if r in H { HistoryInMerge(H, shards, r); }
  }

  /** What draining an opened request gives: the wanted rows of the history, in merge order. */
  ghost predicate Delivers(sources: seq<Source>, H: seq<Record>, q: SR.Request, rows: seq<Record>) {
    Ordered(rows) && forall r :: r in rows <==> r in H && Wants(sources, q, r)
  }

  lemma {:induction false} PickedDelivers(sources: seq<Source>, H: seq<Record>, shards: nat, q: SR.Request)
    requires SR.Choose(sources, q.selection).Chosen? && Sharded(ByShard(H, shards))
    requires forall i :: 0 <= i < |H| ==> H[i].shardIndex < shards && 0 < H[i].sourceId <= |sources|
    ensures Delivers(sources, H, q, SR.Picked(MergeOf(H, shards), q, SR.Choose(sources, q.selection)))
  {
    var choice := SR.Choose(sources, q.selection);
    MergedOrdered(ByShard(H, shards));
    PickedOrdered(MergeOf(H, shards), q, choice);
    forall r
      ensures r in SR.Picked(MergeOf(H, shards), q, choice) <==> r in H && Wants(sources, q, r)
    {
      PickedExact(MergeOf(H, shards), q, choice, r);
      MergeMembers(H, shards, r);
      if r in H { SelectsExact(sources, q, r); }
    }
  }

  lemma {:induction false} SealedRows(c: Codec, l: Layout, t: State, H: seq<Record>, reason: StopReason)
    requires SealedState(c, l, t, H, reason)
    ensures Sharded(ByShard(H, |t.segments|))
    ensures forall i :: 0 <= i < |H| ==> H[i].shardIndex < |t.segments| && 0 < H[i].sourceId <= |t.sources|
  {
    SealedSharded(c, l, t, H, reason);
    forall i | 0 <= i < |H|
      ensures H[i].shardIndex < |t.segments| && 0 < H[i].sourceId <= |t.sources|
    {
      assert RowInRange(t, H, i);
    }
  }

  // --- Which requests -------------------------------------------------------------------------------

  ghost predicate Dropped(g: Gap, x: int) { g.minimumDroppedReceiveNs <= x <= g.maximumDroppedReceiveNs }

  ghost predicate During(q: SR.Request, x: int) { q.beginReceiveNs <= x < q.endReceiveNs }

  /** The request would miss rows lost in this gap: any lifecycle loss, or a loss of a wanted source
      and channel at an unknown time or at some moment of the interval. */
  ghost predicate Loses(sources: seq<Source>, q: SR.Request, g: Gap) {
    || g.channel == SourceLifecycle
    || (&& Asked(sources, q.selection, g.sourceId) && g.channel in q.channels
        && (g.maximumDroppedReceiveNs == 0 || exists x :: Dropped(g, x) && During(q, x)))
  }

  lemma {:induction false} OverlapExact(g: Gap, q: SR.Request)
    requires 0 < g.minimumDroppedReceiveNs <= g.maximumDroppedReceiveNs && q.beginReceiveNs < q.endReceiveNs
    ensures SR.Overlaps(g.minimumDroppedReceiveNs, g.maximumDroppedReceiveNs, q.beginReceiveNs, q.endReceiveNs)
            <==> exists x :: Dropped(g, x) && During(q, x)
  {
    if SR.Overlaps(g.minimumDroppedReceiveNs, g.maximumDroppedReceiveNs, q.beginReceiveNs, q.endReceiveNs) {
      var x := if q.beginReceiveNs < g.minimumDroppedReceiveNs then g.minimumDroppedReceiveNs else q.beginReceiveNs;
      assert Dropped(g, x) && During(q, x);
    }
  }

  lemma {:induction false} LosesExact(sources: seq<Source>, q: SR.Request, g: Gap, shards: nat)
    requires SR.Choose(sources, q.selection).Chosen? && SR.ValidRequest(q) && ValidGap(g, |sources|, shards)
    ensures SR.Hurts(g, q, SR.Choose(sources, q.selection)) <==> Loses(sources, q, g)
  {
    ChoiceExact(sources, q.selection);
    if g.minimumDroppedReceiveNs > 0 { OverlapExact(g, q); }
  }

  /** Row i of the merge shows the request usable market data of a channel. */
  ghost predicate ShowsAt(
      sources: seq<Source>, done: seq<Record>, rows: seq<Record>, q: SR.Request, choice: SR.Choice, i: int, ch: Channel)
    requires choice.Chosen? && SS.AllValid(done + rows)
  {
    && 0 <= i < |rows| && SR.Selects(rows[i], q, choice) && ch in ChannelBit(rows[i].channel)
    && (UpToRow(done, rows, i); Usable(sources, done + rows[..i], rows[i]))
  }

  lemma {:induction false} UpToRow(done: seq<Record>, rows: seq<Record>, i: nat)
    requires SS.AllValid(done + rows) && i < |rows|
    ensures SS.AllValid(done + rows[..i] + [rows[i]])
  {
    assert done + rows == (done + rows[..i] + [rows[i]]) + rows[i + 1..];
    ValidPrefix(done + rows[..i] + [rows[i]], rows[i + 1..]);
  }

  lemma {:induction false} ShowsLater(
      sources: seq<Source>, done: seq<Record>, rows: seq<Record>, q: SR.Request, choice: SR.Choice, i: nat, ch: Channel)
    requires choice.Chosen? && SS.AllValid(done + rows) && 0 < i < |rows|
    ensures (done + [rows[0]]) + rows[1..] == done + rows
    ensures ShowsAt(sources, done, rows, q, choice, i, ch)
            <==> ShowsAt(sources, done + [rows[0]], rows[1..], q, choice, i - 1, ch)
  {
    assert (done + [rows[0]]) + rows[1..] == done + rows;
    assert (done + [rows[0]]) + rows[1..][..i - 1] == done + rows[..i];
  }

  lemma {:induction false} ShownExact(
      sources: seq<Source>, done: seq<Record>, rows: seq<Record>, q: SR.Request, choice: SR.Choice, ch: Channel)
    requires choice.Chosen? && SS.AllValid(done + rows)
    ensures ch in Shown(sources, done, rows, q, choice)
            <==> exists i :: ShowsAt(sources, done, rows, q, choice, i, ch)
    decreases |rows|
  {
    if rows != [] {
      var more := done + [rows[0]];
      assert more + rows[1..] == done + rows;
      ShownExact(sources, more, rows[1..], q, choice, ch);
      assert done + rows[..0] == done;
      if ch in Shown(sources, done, rows, q, choice) {
        if ch in Shown(sources, more, rows[1..], q, choice) {
          var i :| ShowsAt(sources, more, rows[1..], q, choice, i, ch);
          ShowsLater(sources, done, rows, q, choice, i + 1, ch);
          assert ShowsAt(sources, done, rows, q, choice, i + 1, ch);
        } else {
          assert ShowsAt(sources, done, rows, q, choice, 0, ch);
        }
      }
      if i :| ShowsAt(sources, done, rows, q, choice, i, ch) {
        if i > 0 { ShowsLater(sources, done, rows, q, choice, i, ch); }
      }
    }
  }

  /** Some wanted row shows usable market data of the channel when its turn comes in the merge. */
  ghost predicate Presents(t: State, M: seq<Record>, q: SR.Request, ch: Channel)
    requires SS.AllValid(M)
  {
    exists i :: PresentsAt(t, M, q, i, ch)
  }

  ghost predicate PresentsAt(t: State, M: seq<Record>, q: SR.Request, i: int, ch: Channel)
    requires SS.AllValid(M)
  {
    && 0 <= i < |M| && Wants(t.sources, q, M[i]) && ch in ChannelBit(M[i].channel)
    && (ValidUpTo(M, i); Usable(t.sources, M[..i], M[i]))
  }

  lemma {:induction false} ValidUpTo(M: seq<Record>, i: nat)
    requires SS.AllValid(M) && i < |M|
    ensures SS.AllValid(M[..i] + [M[i]])
  {
    assert [] + M == M && [] + M[..i] + [M[i]] == M[..i] + [M[i]];
    UpToRow([], M, i);
  }

  lemma {:induction false} PresentedExact(t: State, H: seq<Record>, q: SR.Request, ch: Channel)
    requires SR.Choose(t.sources, q.selection).Chosen? && InRange(|t.sources|, |t.segments|, MergeOf(H, |t.segments|))
    ensures ch in Presented(t, H, q, SR.Choose(t.sources, q.selection))
            <==> Presents(t, MergeOf(H, |t.segments|), q, ch)
  {
    var M, choice := MergeOf(H, |t.segments|), SR.Choose(t.sources, q.selection);
    assert [] + M == M;
    ShownExact(t.sources, [], M, q, choice, ch);
    forall i
      ensures ShowsAt(t.sources, [], M, q, choice, i, ch) <==> PresentsAt(t, M, q, i, ch)
    {
      if 0 <= i < |M| {
        SelectsExact(t.sources, q, M[i]);
        assert [] + M[..i] == M[..i];
      }
    }
  }

  /** The rows of the request are fit to be given out. */
  ghost predicate Clean(sources: seq<Source>, H: seq<Record>, q: SR.Request) {
    forall i :: 0 <= i < |H| && Wants(sources, q, H[i]) ==>
      GapBoundary !in H[i].flags && (q.strict ==> IsSourceHealth(H[i]) || Compatible(H[i]))
  }

  /** No gap touches the request. */
  ghost predicate Lossless(sources: seq<Source>, q: SR.Request, gaps: seq<Gap>) {
    forall i :: 0 <= i < |gaps| ==> !Loses(sources, q, gaps[i])
  }

  /** When a sealed corpus answers a request, in terms of the request and of what was recorded: the
      request is well formed, lies within the capture and is clear about its sources; no gap touches
      it and its rows are fit; no row predates its catalog entry and each source's rows replay in
      merge order; and every required channel shows usable market data. */
  ghost predicate Answers(t: State, H: seq<Record>, q: SR.Request) {
    && SR.ValidRequest(q) && Choosable(t.sources, q.selection)
    && t.manifest.startedReceiveNs <= q.beginReceiveNs && q.endReceiveNs <= t.manifest.finalizedReceiveNs
    && Lossless(t.sources, q, t.gaps) && Clean(t.sources, H, q) && GenerationsCovered(t, H) && MergeReplays(t, H)
    && forall ch :: ch in q.required ==> Presents(t, MergeOf(H, |t.segments|), q, ch)
  }

  lemma {:induction false} CleanExact(t: State, H: seq<Record>, q: SR.Request)
    requires SR.Choose(t.sources, q.selection).Chosen?
    requires forall i :: 0 <= i < |H| ==> 0 < H[i].sourceId <= |t.sources|
    ensures Unhurt(H, q, SR.Choose(t.sources, q.selection)) <==> Clean(t.sources, H, q)
  {
    forall i | 0 <= i < |H|
      ensures SR.Selects(H[i], q, SR.Choose(t.sources, q.selection)) <==> Wants(t.sources, q, H[i])
    {
      SelectsExact(t.sources, q, H[i]);
    }
  }

  lemma {:induction false} GapsExact(t: State, q: SR.Request)
    requires SR.Choose(t.sources, q.selection).Chosen? && SR.ValidRequest(q)
    requires forall i :: 0 <= i < |t.gaps| ==> ValidGap(t.gaps[i], |t.sources|, |t.segments|)
    ensures (forall i :: 0 <= i < |t.gaps| ==> !SR.Hurts(t.gaps[i], q, SR.Choose(t.sources, q.selection)))
            <==> forall i :: 0 <= i < |t.gaps| ==> !Loses(t.sources, q, t.gaps[i])
  {
    forall i | 0 <= i < |t.gaps|
      ensures SR.Hurts(t.gaps[i], q, SR.Choose(t.sources, q.selection)) <==> Loses(t.sources, q, t.gaps[i])
    {
      LosesExact(t.sources, q, t.gaps[i], |t.segments|);
    }
  }

  lemma {:induction false} RequiredExact(t: State, H: seq<Record>, q: SR.Request)
    requires SR.Choose(t.sources, q.selection).Chosen? && InRange(|t.sources|, |t.segments|, MergeOf(H, |t.segments|))
    ensures Suffices(t, H, q) <==> forall ch :: ch in q.required ==> Presents(t, MergeOf(H, |t.segments|), q, ch)
  {
    forall ch | ch in q.required
      ensures ch in Presented(t, H, q, SR.Choose(t.sources, q.selection))
              <==> Presents(t, MergeOf(H, |t.segments|), q, ch)
    {
      PresentedExact(t, H, q, ch);
    }
  }

  lemma {:induction false} AnswersExact(t: State, H: seq<Record>, q: SR.Request)
    requires forall i :: 0 <= i < |H| ==> 0 < H[i].sourceId <= |t.sources|
    requires forall i :: 0 <= i < |t.gaps| ==> ValidGap(t.gaps[i], |t.sources|, |t.segments|)
    ensures Opens(t, H, q) <==> Answers(t, H, q)
  {
    ChoiceExact(t.sources, q.selection);
    if SR.Choose(t.sources, q.selection).Chosen? {
      CleanExact(t, H, q);
      if SR.ValidRequest(q) { GapsExact(t, q); }
      if MergeReplays(t, H) { RequiredExact(t, H, q); }
    }
  }

  /** The end-to-end result in the request's own terms: what a run has sealed opens for a request if and
      only if it answers it, and draining then gives exactly the rows wanted, in merge order. */
  lemma {:induction false} RequestAnswered(
      c: Codec, l: Layout, g: Config, ms: seq<Moment>, steps: seq<Step>, i: nat, q: SR.Request)
    requires Lawful(c) && IsRun(c, l, g, ms, steps) && EndsSealed(c, l, ms, steps, i) && steps[i].reason != Error
    ensures var t, H := ms[i + 1].state, ms[i + 1].accepted;
            && |t.blocks| == |t.log|
            && var a := OnDisk(c, l, t);
               var o := SR.OpenArchive(c, l, a, q);
               && (o.Open? <==> Answers(t, H, q))
               && (o.Open? ==> o.choice.Chosen?)
               && (o.Open? ==> var rows := SR.Drain(SR.Start(a, o.streams), q, o.choice);
                               rows.Some? && Delivers(t.sources, H, q, rows.value))
  {
    var t, H := ms[i + 1].state, ms[i + 1].accepted;
    SealedRunReadsBack(c, l, g, ms, steps, i, q);
    RunSealed(c, l, g, ms, steps, i);
    SealedRows(c, l, t, H, steps[i].reason);
    SealedGaps(c, l, t, H, steps[i].reason);
    AnswersExact(t, H, q);
    if SR.Choose(t.sources, q.selection).Chosen? { PickedDelivers(t.sources, H, |t.segments|, q); }
  }

  lemma {:induction false} SealedGaps(c: Codec, l: Layout, t: State, H: seq<Record>, reason: StopReason)
    requires SealedState(c, l, t, H, reason)
    ensures forall i :: 0 <= i < |t.gaps| ==> ValidGap(t.gaps[i], |t.sources|, |t.segments|)
  {
  }

  // --- Losses ---------------------------------------------------------------------------------------------

  lemma {:induction false} LosesLast(gaps: seq<Gap>, reports: seq<Gap>, sources: seq<Source>, q: SR.Request)
    requires GapTable(gaps, reports)
    ensures Lossless(sources, q, gaps) <==>
            forall k :: LastReport(reports, k) ==> !Loses(sources, q, reports[k])
  {
    forall i | 0 <= i < |gaps|
      ensures exists k :: LastReport(reports, k) && reports[k] == gaps[i]
    {
      assert gaps[i] in gaps;
    }
    forall k | LastReport(reports, k)
      ensures exists i :: 0 <= i < |gaps| && gaps[i] == reports[k]
    {
      assert reports[k] in gaps;
    }
  }

  /** The gap file of a sealed corpus holds the last gap reported and answered Ok of every source and
      channel and no other gap; and no stored gap touches a request exactly when no last report does. */
  lemma {:induction false} SealedLosses(
      c: Codec, l: Layout, g: Config, ms: seq<Moment>, steps: seq<Step>, i: nat, q: SR.Request)
    requires Lawful(c) && IsRun(c, l, g, ms, steps) && EndsSealed(c, l, ms, steps, i)
    ensures var t, reports := ms[i + 1].state, Reports(c, l, ms, steps, i + 1);
            && |t.blocks| == |t.log| && GapTable(OnDisk(c, l, t).gaps, reports)
            && (Lossless(t.sources, q, OnDisk(c, l, t).gaps) <==>
                  forall k :: LastReport(reports, k) ==> !Loses(t.sources, q, reports[k]))
  {
    GapsOverRuns(c, l, g, ms, steps, i + 1);
    RunSealed(c, l, g, ms, steps, i);
    LosesLast(ms[i + 1].state.gaps, Reports(c, l, ms, steps, i + 1), ms[i + 1].state.sources, q);
  }

  // --- The index ------------------------------------------------------------------------------------------

  /** Every entry of a sealed index is the summary of the rows of its source, generation and channel in
      its segment: their number, the first and last event, the span of receive times, and what is
      marked among them. */
  lemma {:induction false} SealedIndexSummarises(
      c: Codec, l: Layout, g: Config, ms: seq<Moment>, steps: seq<Step>, i: nat, e: nat)
    requires Lawful(c) && IsRun(c, l, g, ms, steps) && EndsSealed(c, l, ms, steps, i) && e < |ms[i + 1].state.index|
    ensures var t := ms[i + 1].state;
            && |t.blocks| == |t.log| && var entry := OnDisk(c, l, t).index[e];
            Index.Recounts(entry, SegmentRows(c, t.blocks, t.log, entry.segmentNumber))
  {
    RunSealed(c, l, g, ms, steps, i);
    EntryRecounts(c, l, ms[i + 1].state, ms[i + 1].accepted, steps[i].reason, e);
  }
}
