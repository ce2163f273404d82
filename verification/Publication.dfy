/** The bounded first-in-first-out cache of compressed blocks that a live cursor tries before the
    archive (src/Runtime/src/Corpus/CorpusCutStorage.hpp). */
module Publication {
  import opened Records
  import opened Storage

  datatype Cached = Cached(segment: nat, offset: nat, bytes: seq<u8>)

  function Size(cache: seq<Cached>): nat {
    if cache == [] then 0 else |cache[0].bytes| + Size(cache[1..])
  }

  lemma {:induction false} SizeAppend(cache: seq<Cached>, e: Cached)
    ensures Size(cache + [e]) == Size(cache) + |e.bytes|
    decreases |cache|
  {
    if cache != [] {
      SizeAppend(cache[1..], e);
      assert (cache + [e])[1..] == cache[1..] + [e];
    }
  }

  /** Drop the oldest entries until the rest fits in `room`. */
  function Evict(cache: seq<Cached>, room: nat): (kept: seq<Cached>)
    ensures Size(kept) <= room
    ensures |kept| <= |cache| && kept == cache[|cache| - |kept|..]
    ensures |kept| < |cache| ==> Size(cache[|cache| - |kept| - 1..]) > room
    decreases |cache|
  {
    if cache == [] || Size(cache) <= room then cache
    else
      var kept := Evict(cache[1..], room);
      assert cache[1..][|cache[1..]| - |kept|..] == cache[|cache| - |kept|..];
      assert |kept| < |cache[1..]| ==> cache[1..][|cache[1..]| - |kept| - 1..] == cache[|cache| - |kept| - 1..];
      assert |kept| == |cache[1..]| ==> cache[|cache| - |kept| - 1..] == cache;
      kept
  }

  function Retain(capacity: nat, cache: seq<Cached>, b: BlockRange, bytes: seq<u8>): seq<Cached> {
    if |bytes| > capacity then cache
    else Evict(cache, capacity - |bytes|) + [Cached(b.segmentNumber, b.offset, bytes)]
  }

  /** The entry a front-to-back scan stops at. */
  function Find(cache: seq<Cached>, b: BlockRange): (i: nat)
    ensures i <= |cache|
    ensures i < |cache| ==> cache[i].segment == b.segmentNumber && cache[i].offset == b.offset
    ensures forall j :: 0 <= j < i ==> !(cache[j].segment == b.segmentNumber && cache[j].offset == b.offset)
    decreases |cache|
  {
    if cache == [] then 0
    else if cache[0].segment == b.segmentNumber && cache[0].offset == b.offset then 0
    else
      var i := Find(cache[1..], b);
      assert forall j :: 0 < j < i + 1 ==> cache[j] == cache[1..][j - 1];
      i + 1
  }

  function Load(cache: seq<Cached>, b: BlockRange): Option<seq<u8>> {
    var i := Find(cache, b);
    if i < |cache| && |cache[i].bytes| == b.header.encodedBytes then Some(cache[i].bytes) else None
  }

  class CorpusPublication {
    const capacity: nat
    var blocks: seq<Cached>
    var retained: int

    ghost predicate Valid()
      reads this
    {
      retained == Size(blocks) && retained <= capacity
    }

    constructor (capacity: nat)
      ensures Valid() && this.capacity == capacity && blocks == []
    {
      this.capacity := capacity;
      blocks, retained := [], 0;
    }

    method RetainBlock(b: BlockRange, bytes: seq<u8>)
      requires Valid()
      modifies this
      ensures Valid()
      ensures blocks == Retain(capacity, old(blocks), b, bytes)
    {
      if |bytes| > capacity { return; }
      while blocks != [] && retained > capacity - |bytes|
        invariant retained == Size(blocks) <= capacity
        invariant Evict(blocks, capacity - |bytes|) == Evict(old(blocks), capacity - |bytes|)
        decreases |blocks|
      {
        retained := retained - |blocks[0].bytes|;
        blocks := blocks[1..];
      }
      SizeAppend(blocks, Cached(b.segmentNumber, b.offset, bytes));
      blocks := blocks + [Cached(b.segmentNumber, b.offset, bytes)];
      retained := retained + |bytes|;
    }

    method LoadBlock(b: BlockRange) returns (found: bool, bytes: seq<u8>)
      requires Valid()
      ensures found == Load(blocks, b).Some?
      ensures found ==> bytes == Load(blocks, b).value
    {
      found, bytes := false, [];
      var i := 0;
      while i < |blocks|
        invariant 0 <= i <= |blocks|
        invariant forall j :: 0 <= j < i ==> !(blocks[j].segment == b.segmentNumber && blocks[j].offset == b.offset)
      {
        if blocks[i].segment == b.segmentNumber && blocks[i].offset == b.offset {
          assert Find(blocks, b) == i;
          if |blocks[i].bytes| != b.header.encodedBytes { return; }
          return true, blocks[i].bytes;
        }
        i := i + 1;
      }
    }
  }

  // --- What the cache may answer ---------------------------------------------------------------

  ghost predicate Names(b: BlockRange, e: Cached) { b.segmentNumber == e.segment && b.offset == e.offset }

  /** Every cached entry repeats the bytes of some logged block. */
  ghost predicate Faithful(bs: seq<BlockRange>, log: seq<seq<u8>>, cache: seq<Cached>) {
    && |bs| == |log|
    && forall e :: e in cache ==> exists i :: 0 <= i < |bs| && Names(bs[i], e) && log[i] == e.bytes
  }

  lemma {:induction false} RetainKeepsFaithful(
      bs: seq<BlockRange>, log: seq<seq<u8>>, capacity: nat, cache: seq<Cached>, b: BlockRange, bytes: seq<u8>)
    requires Faithful(bs, log, cache)
    ensures Faithful(bs + [b], log + [bytes], Retain(capacity, cache, b, bytes))
  {
    var bs', log' := bs + [b], log + [bytes];
    forall e | e in Retain(capacity, cache, b, bytes)
      ensures exists i :: 0 <= i < |bs'| && Names(bs'[i], e) && log'[i] == e.bytes
    {
      if e in cache {
        var i :| 0 <= i < |bs| && Names(bs[i], e) && log[i] == e.bytes;
        assert Names(bs'[i], e) && log'[i] == e.bytes;
      } else {
        assert e == Cached(b.segmentNumber, b.offset, bytes);
        assert Names(bs'[|bs|], e) && log'[|bs|] == bytes;
      }
    }
  }

  lemma {:induction false} StoredOfMonotone(bs: seq<BlockRange>, i: nat, j: nat, k: nat)
    requires i <= j <= |bs|
    ensures StoredOf(bs[..i], k) <= StoredOf(bs[..j], k)
    ensures i < j && bs[i].segmentNumber == k ==> StoredOf(bs[..i], k) + StoredBytes(bs[i]) <= StoredOf(bs[..j], k)
    decreases j
  {
    if i < j {
      StoredOfMonotone(bs, i, j - 1, k);
      assert bs[..j][..j - 1] == bs[..j - 1];
      assert bs[..j][j - 1] == bs[j - 1];
    }
  }

  /** Segment number and offset name at most one block. */
  lemma {:induction false} PlaceIsUnique(c: Codec, bs: seq<BlockRange>, log: seq<seq<u8>>, i: nat, j: nat)
    requires LogOk(c, bs, log) && i < |bs| && j < |bs|
    requires bs[i].segmentNumber == bs[j].segmentNumber && bs[i].offset == bs[j].offset
    ensures i == j
  {
    assert PlacedAt(bs, i) && PlacedAt(bs, j);
    if i < j { StoredOfMonotone(bs, i, j, bs[i].segmentNumber); }
    if j < i { StoredOfMonotone(bs, j, i, bs[i].segmentNumber); }
  }

  /** A hit in the cache is exactly the block's payload, never another block's. */
  lemma {:induction false} LoadIsFaithful(c: Codec, bs: seq<BlockRange>, log: seq<seq<u8>>, cache: seq<Cached>, i: nat)
    requires LogOk(c, bs, log) && Faithful(bs, log, cache) && i < |bs|
    requires Load(cache, bs[i]).Some?
    ensures Load(cache, bs[i]).value == log[i]
  {
    var e := cache[Find(cache, bs[i])];
    assert e in cache;
    var j :| 0 <= j < |bs| && Names(bs[j], e) && log[j] == e.bytes;
    PlaceIsUnique(c, bs, log, i, j);
  }
}
