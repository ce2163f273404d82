/** The k-way shard merge both readers perform: repeatedly take the smallest head. */
module Merge {
  import opened Records
  import opened DepthTransaction

  /** The live cursor's three-key order (CorpusCut.cpp). */
  predicate Before(a: Record, b: Record) {
    if a.receiveMonotonicNs != b.receiveMonotonicNs then a.receiveMonotonicNs < b.receiveMonotonicNs
    else if a.shardIndex != b.shardIndex then a.shardIndex < b.shardIndex
    else a.shardSequence < b.shardSequence
  }

  /** The sealed reader's seven-key order (BinaryMarketCorpusReader.cpp). */
  predicate RecordBefore(a: Record, b: Record) {
    if a.receiveMonotonicNs != b.receiveMonotonicNs then a.receiveMonotonicNs < b.receiveMonotonicNs
    else if a.shardIndex != b.shardIndex then a.shardIndex < b.shardIndex
    else if a.shardSequence != b.shardSequence then a.shardSequence < b.shardSequence
    else if a.receiveRealtimeNs != b.receiveRealtimeNs then a.receiveRealtimeNs < b.receiveRealtimeNs
    else if a.frameSequence != b.frameSequence then a.frameSequence < b.frameSequence
    else if a.eventOrdinal != b.eventOrdinal then a.eventOrdinal < b.eventOrdinal
    else a.eventSequence < b.eventSequence
  }

  /** Row streams of a corpus, one per shard: each row names its shard and arrives in order. */
  ghost predicate Sharded(ss: seq<seq<Record>>) {
    forall n :: 0 <= n < |ss| ==>
      Sorted(ss[n]) && forall i :: 0 <= i < |ss[n]| ==> ss[n][i].shardIndex == n
  }

  ghost predicate Holds(ss: seq<seq<Record>>, r: Record) {
    exists n, i :: 0 <= n < |ss| && 0 <= i < |ss[n]| && ss[n][i] == r
  }

  /** On the rows of a corpus the two orders are the same order. */
  lemma {:induction false} OrdersAgree(ss: seq<seq<Record>>, a: Record, b: Record)
    requires Sharded(ss) && Holds(ss, a) && Holds(ss, b)
    ensures Before(a, b) == RecordBefore(a, b)
    ensures a != b ==> Before(a, b) != Before(b, a)
  {
    var n, i :| 0 <= n < |ss| && 0 <= i < |ss[n]| && ss[n][i] == a;
    var m, j :| 0 <= m < |ss| && 0 <= j < |ss[m]| && ss[m][j] == b;
    if n == m {
      if i < j { assert a.shardSequence < b.shardSequence; }
      else if j < i { assert b.shardSequence < a.shardSequence; }
    }
  }

  /** The shard a left-to-right scan of the first k heads settles on. */
  function Best(ss: seq<seq<Record>>, k: nat): (b: Option<nat>)
    requires k <= |ss|
    ensures b.Some? ==> b.value < k && ss[b.value] != []
    ensures b.None? <==> forall n :: 0 <= n < k ==> ss[n] == []
    decreases k
  {
    if k == 0 then None
    else
      var b := Best(ss, k - 1);
      if ss[k - 1] == [] then b
      else if b.None? || Before(ss[k - 1][0], ss[b.value][0]) then Some(k - 1)
      else b
  }

  /** The settled head is the smallest one, and no other shard's head ties with it. */
  lemma {:induction false} BestIsLeast(ss: seq<seq<Record>>, k: nat)
    requires k <= |ss| && Sharded(ss) && Best(ss, k).Some?
    ensures forall n :: 0 <= n < k && ss[n] != [] && n != Best(ss, k).value ==>
              Before(ss[Best(ss, k).value][0], ss[n][0])
    decreases k
  {
    if Best(ss, k - 1).Some? { BestIsLeast(ss, k - 1); }
  }

  function Pop(ss: seq<seq<Record>>, n: nat): (t: seq<seq<Record>>)
    requires n < |ss| && ss[n] != []
    ensures |t| == |ss|
  {
    ss[n := ss[n][1..]]
  }

  function Total(ss: seq<seq<Record>>): nat {
    if ss == [] then 0 else |ss[0]| + Total(ss[1..])
  }

  lemma {:induction false} PopTotal(ss: seq<seq<Record>>, n: nat)
    requires n < |ss| && ss[n] != []
    ensures Total(Pop(ss, n)) == Total(ss) - 1
    decreases |ss|
  {
    if n == 0 {
      assert Pop(ss, n)[1..] == ss[1..];
    } else {
      assert Pop(ss, n)[1..] == Pop(ss[1..], n - 1);
      PopTotal(ss[1..], n - 1);
    }
  }

  lemma {:induction false} PopSharded(ss: seq<seq<Record>>, n: nat)
    requires n < |ss| && ss[n] != [] && Sharded(ss)
    ensures Sharded(Pop(ss, n))
  {
    var t := Pop(ss, n);
    forall m | 0 <= m < |t|
      ensures Sorted(t[m]) && forall i :: 0 <= i < |t[m]| ==> t[m][i].shardIndex == m
    {
      if m == n {
        forall i | 0 <= i < |t[m]|
          ensures t[m][i].shardIndex == m
        {
          assert t[m][i] == ss[m][i + 1];
        }
      }
    }
  }

  /** All rows in merged order. */
  function Merged(ss: seq<seq<Record>>): seq<Record>
    decreases Total(ss)
  {
    var b := Best(ss, |ss|);
    if b.None? then [] else
      PopTotal(ss, b.value);
      [ss[b.value][0]] + Merged(Pop(ss, b.value))
  }

  function OfShard(rs: seq<Record>, n: nat): seq<Record> {
    if rs == [] then []
    else (if rs[0].shardIndex == n then [rs[0]] else []) + OfShard(rs[1..], n)
  }

  /** The merge loses, adds and reorders nothing within a shard... */
  lemma {:induction false} MergedKeepsShards(ss: seq<seq<Record>>, n: nat)
    requires Sharded(ss) && n < |ss|
    ensures OfShard(Merged(ss), n) == ss[n]
    decreases Total(ss)
  {
    var b := Best(ss, |ss|);
    if b.None? {
      assert ss[n] == [];
    } else {
      PopTotal(ss, b.value);
      PopSharded(ss, b.value);
      MergedKeepsShards(Pop(ss, b.value), n);
      var head, tail := ss[b.value][0], Merged(Pop(ss, b.value));
      assert Merged(ss) == [head] + tail && ([head] + tail)[1..] == tail && head.shardIndex == b.value;
      assert ss[b.value] == [head] + ss[b.value][1..];
    }
  }

  ghost predicate Ordered(rs: seq<Record>) {
    forall i, j :: 0 <= i < j < |rs| ==> Before(rs[i], rs[j])
  }

  lemma {:induction false} MergedComesFrom(ss: seq<seq<Record>>, i: nat)
    requires i < |Merged(ss)|
    ensures Holds(ss, Merged(ss)[i])
    decreases Total(ss)
  {
    var b := Best(ss, |ss|).value;
    if i == 0 {
      assert ss[b][0] == Merged(ss)[i];
    } else {
      var t := Pop(ss, b);
      PopTotal(ss, b);
      assert Merged(ss)[i] == Merged(t)[i - 1];
      MergedComesFrom(t, i - 1);
      var n, j :| 0 <= n < |t| && 0 <= j < |t[n]| && t[n][j] == Merged(t)[i - 1];
      if n == b { assert ss[n][j + 1] == t[n][j]; }
    }
  }

  lemma {:induction false} HeadPrecedesAll(ss: seq<seq<Record>>, b: nat, r: Record)
    requires Sharded(ss) && Best(ss, |ss|) == Some(b) && Holds(Pop(ss, b), r)
    ensures Before(ss[b][0], r)
  {
    var t := Pop(ss, b);
    BestIsLeast(ss, |ss|);
    var n, j :| 0 <= n < |t| && 0 <= j < |t[n]| && t[n][j] == r;
    if n == b {
      assert ss[n][j + 1] == r;
    } else {
      assert ss[n][j] == r && Before(ss[b][0], ss[n][0]);
      if j > 0 { assert ss[n][0].receiveMonotonicNs <= r.receiveMonotonicNs; }
    }
  }

  lemma {:induction false} OrderedCons(h: Record, rs: seq<Record>)
    requires Ordered(rs) && forall j :: 0 <= j < |rs| ==> Before(h, rs[j])
    ensures Ordered([h] + rs)
  {
  }

  /** ... and its output is strictly increasing in the merge order. */
  lemma {:induction false} MergedOrdered(ss: seq<seq<Record>>)
    requires Sharded(ss)
    ensures Ordered(Merged(ss))
    decreases Total(ss)
  {
    var b := Best(ss, |ss|);
    if b.Some? {
      var t := Pop(ss, b.value);
      PopTotal(ss, b.value);
      PopSharded(ss, b.value);
      MergedOrdered(t);
      forall j | 0 <= j < |Merged(t)|
        ensures Before(ss[b.value][0], Merged(t)[j])
      {
        MergedComesFrom(t, j);
        HeadPrecedesAll(ss, b.value, Merged(t)[j]);
      }
      OrderedCons(ss[b.value][0], Merged(t));
    }
  }

  // --- Consuming a merge that keeps growing ---------------------------------------------------

  /** `done` is what a reader that always takes the best head has taken from `ss`, `rest` what it
      has left. */
  ghost predicate Consumed(ss: seq<seq<Record>>, done: seq<Record>, rest: seq<seq<Record>>)
    decreases |done|
  {
    if done == [] then ss == rest
    else
      var b := Best(ss, |ss|);
      b.Some? && done[0] == ss[b.value][0] && Consumed(Pop(ss, b.value), done[1..], rest)
  }

  lemma {:induction false} ConsOntoPrefix<T>(done: seq<T>, rest: seq<T>)
    requires done != []
    ensures [done[0]] + (done[1..] + rest) == done + rest
  {
    assert done == [done[0]] + done[1..];
  }

  lemma {:induction false} ConsumedMerges(ss: seq<seq<Record>>, done: seq<Record>, rest: seq<seq<Record>>)
    requires Consumed(ss, done, rest)
    ensures Merged(ss) == done + Merged(rest)
    decreases |done|
  {
    if done != [] {
      ConsumedMerges(Pop(ss, Best(ss, |ss|).value), done[1..], rest);
      ConsOntoPrefix(done, Merged(rest));
    }
  }

  /** Taking the best remaining head extends the consumed prefix. */
  lemma {:induction false} ConsumeOne(ss: seq<seq<Record>>, done: seq<Record>, rest: seq<seq<Record>>)
    requires Consumed(ss, done, rest) && Best(rest, |rest|).Some?
    ensures Consumed(ss, done + [rest[Best(rest, |rest|).value][0]], Pop(rest, Best(rest, |rest|).value))
    decreases |done|
  {
    var b := Best(rest, |rest|).value;
    var more := done + [rest[b][0]];
    if done == [] {
      assert more[1..] == [];
    } else {
      ConsumeOne(Pop(ss, Best(ss, |ss|).value), done[1..], rest);
      assert more[1..] == done[1..] + [rest[b][0]];
    }
  }

  ghost predicate From(rs: seq<Record>, time: int) {
    forall i :: 0 <= i < |rs| ==> rs[i].receiveMonotonicNs >= time
  }

  /** `big` continues every stream of `small` with rows at or after `safe` only. */
  ghost predicate Extends(small: seq<seq<Record>>, big: seq<seq<Record>>, safe: int) {
    && |small| == |big|
    && forall n :: 0 <= n < |small| ==> small[n] <= big[n] && From(big[n][|small[n]|..], safe)
  }

  lemma {:induction false} OfShardConcat(a: seq<Record>, b: seq<Record>, n: nat)
    ensures OfShard(a + b, n) == OfShard(a, n) + OfShard(b, n)
    decreases |a|
  {
    if a == [] {
      assert a + b == b;
    } else {
      OfShardConcat(a[1..], b, n);
      assert (a + b)[1..] == a[1..] + b && (a + b)[0] == a[0];
      Associates(if a[0].shardIndex == n then [a[0]] else [], OfShard(a[1..], n), OfShard(b, n));
    }
  }

  lemma {:induction false} OfShardFrom(rs: seq<Record>, n: nat, time: int)
    requires From(rs, time)
    ensures From(OfShard(rs, n), time)
    decreases |rs|
  {
    if rs != [] { OfShardFrom(rs[1..], n, time); }
  }

  lemma {:induction false} Associates(a: seq<Record>, b: seq<Record>, d: seq<Record>)
    ensures a + (b + d) == (a + b) + d
  {
  }

  lemma {:induction false} OfShardAppend(rs: seq<Record>, r: Record, n: nat)
    ensures OfShard(rs + [r], n) == OfShard(rs, n) + (if r.shardIndex == n then [r] else [])
  {
    OfShardConcat(rs, [r], n);
    assert [r][1..] == [];
  }

  lemma {:induction false} BestUnique(ss: seq<seq<Record>>, b: nat)
    requires Sharded(ss) && b < |ss| && ss[b] != []
    requires forall n :: 0 <= n < |ss| && n != b && ss[n] != [] ==> Before(ss[b][0], ss[n][0])
    ensures Best(ss, |ss|) == Some(b)
  {
    BestIsLeast(ss, |ss|);
  }

  lemma {:induction false} BestStable(small: seq<seq<Record>>, big: seq<seq<Record>>, safe: int)
    requires Sharded(small) && Sharded(big) && Extends(small, big, safe)
    requires Best(small, |small|).Some?
    requires small[Best(small, |small|).value][0].receiveMonotonicNs < safe
    ensures Best(big, |big|) == Best(small, |small|)
  {
    var b := Best(small, |small|).value;
    BestIsLeast(small, |small|);
    forall n | 0 <= n < |big| && n != b && big[n] != []
      ensures Before(big[b][0], big[n][0])
    {
      if small[n] == [] {
        assert big[n][|small[n]|..][0] == big[n][0];
      } else {
        assert big[n][0] == small[n][0];
      }
    }
    BestUnique(big, b);
  }

  lemma {:induction false} PopExtends(small: seq<seq<Record>>, big: seq<seq<Record>>, safe: int, b: nat)
    requires Extends(small, big, safe) && b < |small| && small[b] != []
    ensures big[b] != [] && Extends(Pop(small, b), Pop(big, b), safe)
    ensures forall n :: 0 <= n < |small| ==>
              Pop(big, b)[n][|Pop(small, b)[n]|..] == big[n][|small[n]|..]
  {
    assert big[b][1..][|small[b]| - 1..] == big[b][|small[b]|..];
  }

  /** What a reader has left once its streams grew from `small` to `big`. */
  ghost predicate Grown(small: seq<seq<Record>>, big: seq<seq<Record>>, rest: seq<seq<Record>>, more: seq<seq<Record>>)
  {
    && |rest| == |small| == |more| == |big|
    && forall n :: 0 <= n < |small| ==> |small[n]| <= |big[n]| && more[n] == rest[n] + big[n][|small[n]|..]
  }

  lemma {:induction false} GrownWhole(small: seq<seq<Record>>, big: seq<seq<Record>>, safe: int, more: seq<seq<Record>>)
    requires Extends(small, big, safe) && Grown(small, big, small, more)
    ensures big == more
  {
    forall n | 0 <= n < |big|
      ensures big[n] == more[n]
    {
      assert big[n] == small[n] + big[n][|small[n]|..];
    }
  }

  /** Growth behind the watermark leaves the consumed prefix a consumed prefix. */
  lemma {:induction false} ConsumedStable(
      small: seq<seq<Record>>, big: seq<seq<Record>>, safe: int, done: seq<Record>, rest: seq<seq<Record>>,
      more: seq<seq<Record>>)
    requires Sharded(small) && Sharded(big) && Extends(small, big, safe)
    requires Consumed(small, done, rest) && Grown(small, big, rest, more)
    requires forall i :: 0 <= i < |done| ==> done[i].receiveMonotonicNs < safe
    ensures Consumed(big, done, more)
    decreases |done|
  {
    if done == [] {
      GrownWhole(small, big, safe, more);
    } else {
      var b := Best(small, |small|).value;
      BestStable(small, big, safe);
      PopExtends(small, big, safe, b);
      PopSharded(small, b);
      PopSharded(big, b);
      ConsumedStable(Pop(small, b), Pop(big, b), safe, done[1..], rest, more);
    }
  }
}
