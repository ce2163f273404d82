/** What a depth transaction is, said row by row and without the automaton's counters, and that the
    automaton accepts exactly these
    (src/Contracts/include/hftrec/CorpusContract/BinaryMarketDepthTransaction.hpp). */
module DepthGrammar {
  import opened Records
  import opened DepthTransaction

  // --- The grammar --------------------------------------------------------------------------------------

  predicate Native(r: Record) { r.channel == Depth && r.payload.DepthRow? && DepthCoverage !in r.flags }

  predicate Covering(r: Record) { r.channel == Depth && r.payload.CoverageRow? && DepthCoverage in r.flags }

  predicate HasCoverage(r: Record) { DepthHasCoverage in r.flags }

  /** All rows of a transaction share frame, clocks, owner and the promise of coverage. */
  predicate Together(a: Record, b: Record) {
    && a.frameSequence == b.frameSequence && a.receiveMonotonicNs == b.receiveMonotonicNs
    && a.receiveRealtimeNs == b.receiveRealtimeNs && SameOwner(a, b) && (HasCoverage(a) <==> HasCoverage(b))
  }

  /** No row comes behind this one. */
  predicate Closes(r: Record) {
    if Native(r) then
      var p := r.payload.chunk;
      !HasCoverage(r) && p.partIndex + 1 == p.partCount && p.transactionPartIndex + 1 == p.transactionPartCount
    else Covering(r) && r.payload.part.partIndex + 1 == r.payload.part.partCount
  }

  /** A row on its own: valid, a slice of its levels or of the coverage, marked as the end if it is. */
  predicate Proper(r: Record) {
    && ValidRecord(r) && r.channel == Depth && (DepthTransactionEnd in r.flags <==> Closes(r))
    && (Native(r) ==>
          var p := r.payload.chunk;
          p.withinPartLimit && p.transactionPartIndex < p.transactionPartCount && ChunkGeometry(p))
  }

  predicate Opens(r: Record) {
    Native(r) && r.payload.chunk.transactionPartIndex == 0 && r.payload.chunk.partIndex == 0
  }

  /** Row b is the next slice of a's native part. */
  predicate NextChunk(a: Record, b: Record) {
    && Native(a) && Native(b)
    && var p, q := a.payload.chunk, b.payload.chunk;
       && p.partIndex + 1 < p.partCount == q.partCount && q.partIndex == p.partIndex + 1
       && q.transactionPartIndex == p.transactionPartIndex && q.transactionPartCount == p.transactionPartCount
       && q.totalLevelCount == p.totalLevelCount && ContinuesChunk(b, q, a, p)
  }

  /** Row b is the first slice of the native part behind a's. */
  predicate NextPart(a: Record, b: Record) {
    && Native(a) && Native(b)
    && var p, q := a.payload.chunk, b.payload.chunk;
       && p.partIndex + 1 == p.partCount && p.transactionPartIndex + 1 < p.transactionPartCount
       && q.transactionPartCount == p.transactionPartCount
       && q.transactionPartIndex == p.transactionPartIndex + 1 && q.partIndex == 0
  }

  predicate SameEvent(a: Record, b: Record) {
    a.eventSequence == b.eventSequence && a.exchangeTimestampNs == b.exchangeTimestampNs
  }

  /** Row b is the first of the coverage behind the last native row. */
  predicate FirstCoverage(a: Record, b: Record) {
    && Native(a) && Covering(b) && SameEvent(a, b) && HasCoverage(a)
    && var p, q := a.payload.chunk, b.payload.part;
       && p.partIndex + 1 == p.partCount && p.transactionPartIndex + 1 == p.transactionPartCount
       && q.partIndex == 0 && q.transactionPartCount == p.transactionPartCount
  }

  predicate NextCoverage(a: Record, b: Record) {
    && Covering(a) && Covering(b) && SameEvent(a, b)
    && var p, q := a.payload.part, b.payload.part;
       && p.partIndex + 1 < p.partCount == q.partCount && q.partIndex == p.partIndex + 1
       && q.totalCoverageCount == p.totalCoverageCount && q.transactionPartCount == p.transactionPartCount
  }

  predicate Leads(a: Record, b: Record) {
    NextChunk(a, b) || NextPart(a, b) || FirstCoverage(a, b) || NextCoverage(a, b)
  }

  /** Row i of the chain fits: proper, of the first row's frame, and behind the row before it. */
  ghost predicate LinkAt(rows: seq<Record>, i: int) {
    0 <= i < |rows| && Proper(rows[i]) && Together(rows[0], rows[i]) && (i > 0 ==> Leads(rows[i - 1], rows[i]))
  }

  /** The rows of a transaction, from its first row on. */
  ghost predicate Chain(rows: seq<Record>) {
    rows != [] && Opens(rows[0]) && forall i :: 0 <= i < |rows| ==> LinkAt(rows, i)
  }

  ghost predicate Whole(rows: seq<Record>) { Chain(rows) && Closes(rows[|rows| - 1]) }

  /** A shard's rows between transactions: single rows of other channels and whole transactions. */
  ghost predicate Sentences(rs: seq<Record>)
    decreases |rs|
  {
    || rs == []
    || (Sentences(rs[..|rs| - 1]) && rs[|rs| - 1].channel != Depth)
    || exists n :: 0 <= n < |rs| && Sentences(rs[..n]) && Whole(rs[n..])
  }

  /** A shard's rows at any time: sentences, and then the beginning of a transaction, if any. */
  ghost predicate Grammatical(rs: seq<Record>, n: int) {
    0 <= n <= |rs| && Sentences(rs[..n]) && (n == |rs| || (Chain(rs[n..]) && !Closes(rs[|rs| - 1])))
  }

  // --- The automaton's counters ---------------------------------------------------------------------------

  /** What the automaton remembers behind row a of a transaction that began with row o. */
  ghost predicate Remembers(t: Transaction, o: Record, a: Record) {
    && t.Open? && t.frameSequence == o.frameSequence && t.firstShardSequence == o.shardSequence
    && t.receiveMonotonicNs == o.receiveMonotonicNs && t.receiveRealtimeNs == o.receiveRealtimeNs
    && (t.hasCoverage <==> HasCoverage(o)) && t.last.Some? && SameOwner(t.last.value, a)
    && if Native(a) then RemembersNative(t, a) else Covering(a) && RemembersCoverage(t, a)
  }

  ghost predicate RemembersNative(t: Transaction, a: Record)
    requires t.Open? && Native(a)
  {
    var p := a.payload.chunk;
    && t.last == Some(a) && t.nativeParts == p.transactionPartCount && t.nextCoverage == 0
    && if p.partIndex + 1 < p.partCount then
         && !t.awaitingCoverage && t.nextNative == p.transactionPartIndex && t.nextChunk == p.partIndex + 1
         && t.totalLevels == p.totalLevelCount && t.chunkParts == p.partCount
       else if p.transactionPartIndex + 1 < p.transactionPartCount then
         !t.awaitingCoverage && t.nextNative == p.transactionPartIndex + 1 && t.nextChunk == 0
       else t.awaitingCoverage
  }

  ghost predicate RemembersCoverage(t: Transaction, a: Record)
    requires t.Open? && t.last.Some? && Covering(a)
  {
    var p := a.payload.part;
    && t.awaitingCoverage && t.nextCoverage == p.partIndex + 1 && t.nativeParts == p.transactionPartCount
    && t.totalCoverage == p.totalCoverageCount && t.coverageParts == p.partCount && SameEvent(t.last.value, a)
  }

  /** What a step of the automaton gives: nothing, the end, or the memory of the row. */
  ghost predicate Gives(u: Option<Transaction>, o: Record, r: Record, fits: bool) {
    && (u.Some? <==> fits)
    && (fits ==> if Closes(r) then u == Some(Idle) else Remembers(u.value, o, r))
  }

  lemma {:induction false} FirstRow(r: Record)
    requires r.channel == Depth
    ensures Gives(Advance(r, Idle), r, r, Proper(r) && Opens(r))
  {
  }

  lemma {:induction false} ChunkBehind(t: Transaction, o: Record, a: Record, r: Record)
    requires Remembers(t, o, a) && Proper(a) && !Closes(a) && Together(o, a) && ValidRecord(r) && Native(r)
    ensures Gives(Advance(r, t), o, r, Proper(r) && Together(o, r) && Leads(a, r))
  {
  }

  lemma {:induction false} CoverageBehind(t: Transaction, o: Record, a: Record, r: Record)
    requires Remembers(t, o, a) && Proper(a) && !Closes(a) && Together(o, a) && ValidRecord(r) && Covering(r)
    ensures Gives(Advance(r, t), o, r, Proper(r) && Together(o, r) && Leads(a, r))
  {
  }

  lemma {:induction false} RowBehind(t: Transaction, o: Record, a: Record, r: Record)
    requires Remembers(t, o, a) && Proper(a) && !Closes(a) && Together(o, a) && r.channel == Depth
    ensures Gives(Advance(r, t), o, r, Proper(r) && Together(o, r) && Leads(a, r))
  {
    if ValidRecord(r) {
      if Native(r) { ChunkBehind(t, o, a, r); } else { CoverageBehind(t, o, a, r); }
    }
  }

  // --- Chains and sentences -------------------------------------------------------------------------------

  lemma {:induction false} ChainOne(r: Record)
    ensures Chain([r]) <==> Proper(r) && Opens(r)
  {
    assert LinkAt([r], 0) <==> Proper(r);
  }

  lemma {:induction false} LinkSame(rows: seq<Record>, r: Record, i: int)
    requires 0 <= i < |rows|
    ensures LinkAt(rows + [r], i) <==> LinkAt(rows, i)
  {
  }

  lemma {:induction false} ChainMore(rows: seq<Record>, r: Record)
    requires rows != []
    ensures Chain(rows + [r]) <==>
            Chain(rows) && Proper(r) && Together(rows[0], r) && Leads(rows[|rows| - 1], r)
  {
    var more := rows + [r];
    forall i | 0 <= i < |rows|
      ensures LinkAt(more, i) <==> LinkAt(rows, i)
    {
      LinkSame(rows, r, i);
    }
    assert LinkAt(more, |rows|) <==> Proper(r) && Together(rows[0], r) && Leads(rows[|rows| - 1], r);
    if Chain(rows) && LinkAt(more, |rows|) {
      forall i | 0 <= i < |more|
        ensures LinkAt(more, i)
      {
        if i < |rows| { assert LinkAt(rows, i); }
      }
    }
    if Chain(more) {
      forall i | 0 <= i < |rows|
        ensures LinkAt(rows, i)
      {
        assert LinkAt(more, i);
      }
      assert LinkAt(more, |rows|);
    }
  }

  /** The automaton's state tells where the rows stand: between transactions, or behind row n on. */
  ghost predicate Stands(t: Transaction, rs: seq<Record>, n: int) {
    && Grammatical(rs, n)
    && if n == |rs| then t == Idle else Remembers(t, rs[n], rs[|rs| - 1])
  }

  lemma {:induction false} LastLink(rows: seq<Record>)
    requires Chain(rows)
    ensures Proper(rows[|rows| - 1]) && Together(rows[0], rows[|rows| - 1])
  {
    assert LinkAt(rows, |rows| - 1);
  }

  /** One more row behind the beginning of a transaction. */
  lemma {:induction false} ChainStep(t: Transaction, rows: seq<Record>, r: Record)
    requires Chain(rows) && !Closes(rows[|rows| - 1]) && Remembers(t, rows[0], rows[|rows| - 1]) && r.channel == Depth
    ensures Gives(Advance(r, t), rows[0], r, Chain(rows + [r]))
  {
    LastLink(rows);
    RowBehind(t, rows[0], rows[|rows| - 1], r);
    ChainMore(rows, r);
  }

  lemma {:induction false} ChainStart(r: Record)
    requires r.channel == Depth
    ensures Gives(Advance(r, Idle), r, r, Chain([r]))
  {
    FirstRow(r);
    ChainOne(r);
  }

  // --- The automaton accepts only sentences ---------------------------------------------------------------

  /** Where the rows stand once row r has come behind a chain that starts at n. */
  lemma {:induction false} Lands(rs: seq<Record>, n: nat, t: Transaction)
    requires n < |rs| && Sentences(rs[..n]) && Chain(rs[n..])
    requires Gives(Some(t), rs[n], rs[|rs| - 1], true)
    ensures Stands(t, rs, if Closes(rs[|rs| - 1]) then |rs| else n)
  {
    assert rs[n..][|rs| - n - 1] == rs[|rs| - 1] && rs[..|rs|] == rs;
    if Closes(rs[|rs| - 1]) { assert Sentences(rs[..n]) && Whole(rs[n..]); }
  }

  lemma {:induction false} AcceptedMore(rs: seq<Record>, r: Record, m: nat, t: Transaction) returns (n: nat)
    requires Stands(t, rs, m) && Advance(r, t).Some?
    ensures Stands(Advance(r, t).value, rs + [r], n)
  {
    var more := rs + [r];
    assert more[..|rs|] == rs && more[..m] == rs[..m];
    if r.channel != Depth {
      n := |more|;
      assert more[..n] == more && rs[..m] == rs;
    } else {
      n := if Closes(r) then |more| else m;
      assert more[m..] == rs[m..] + [r];
      if m == |rs| { ChainStart(r); } else { ChainStep(t, rs[m..], r); }
      Lands(more, m, Advance(r, t).value);
    }
  }

  lemma {:induction false} Accepted(rs: seq<Record>) returns (n: nat)
    requires Replay(rs).Some?
    ensures Stands(Replay(rs).value, rs, n)
    decreases |rs|
  {
    if rs == [] {
      n := 0;
    } else {
      var front, r := rs[..|rs| - 1], rs[|rs| - 1];
      var m := Accepted(front);
      n := AcceptedMore(front, r, m, Replay(front).value);
      assert front + [r] == rs;
    }
  }

  // --- And all of them ------------------------------------------------------------------------------------

  lemma {:induction false} LeadsOn(a: Record, b: Record)
    requires Leads(a, b)
    ensures !Closes(a)
  {
  }

  lemma {:induction false} ChainReplays(rs: seq<Record>, n: nat)
    requires n < |rs| && Replay(rs[..n]) == Some(Idle) && Chain(rs[n..])
    ensures Gives(Replay(rs), rs[n], rs[|rs| - 1], true)
    decreases |rs|
  {
    var front, r := rs[..|rs| - 1], rs[|rs| - 1];
    assert rs[n..] == front[n..] + [r] && front[..n] == rs[..n];
    LastLink(rs[n..]);
    if n == |front| {
      ChainStart(r);
    } else {
      ChainMore(front[n..], r);
      LeadsOn(front[|front| - 1], r);
      ChainReplays(front, n);
      ChainStep(Replay(front).value, front[n..], r);
    }
  }

  lemma {:induction false} SentencesReplay(rs: seq<Record>)
    requires Sentences(rs)
    ensures Replay(rs) == Some(Idle)
    decreases |rs|
  {
    if rs != [] {
      if Sentences(rs[..|rs| - 1]) && rs[|rs| - 1].channel != Depth {
        SentencesReplay(rs[..|rs| - 1]);
      } else {
        var n :| 0 <= n < |rs| && Sentences(rs[..n]) && Whole(rs[n..]);
        SentencesReplay(rs[..n]);
        ChainReplays(rs, n);
        assert rs[n..][|rs| - n - 1] == rs[|rs| - 1];
      }
    }
  }

  /** The automaton is between transactions behind exactly the sequences of whole transactions and rows
      of other channels, and it accepts exactly these and the beginnings of one more transaction. */
  lemma {:induction false} ReplayExact(rs: seq<Record>)
    ensures Replay(rs) == Some(Idle) <==> Sentences(rs)
    ensures Replay(rs).Some? <==> exists n :: Grammatical(rs, n)
  {
    if Replay(rs).Some? {
      var n := Accepted(rs);
      assert Grammatical(rs, n) && (n == |rs| ==> rs[..n] == rs);
    }
    if Sentences(rs) { SentencesReplay(rs); }
    if n :| Grammatical(rs, n) {
      SentencesReplay(rs[..n]);
      if n < |rs| { ChainReplays(rs, n); } else { assert rs[..n] == rs; }
    }
  }
}
