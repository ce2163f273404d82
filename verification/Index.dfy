/** The per-segment index: one summary for each source, generation and channel that occurs in a
    segment.  The writer keeps it up to date row by row through a position table; the sealed reader
    derives it again from the stored rows. */
module Index {
  import opened Records

  datatype Key = Key(sourceId: u32, sourceGeneration: u64, channel: Channel)

  datatype Entry = Entry(
    segmentNumber: nat, key: Key, shardIndex: nat, recordCount: nat, gapCount: nat,
    firstEventSequence: nat, lastEventSequence: nat, firstReceiveNs: int, lastReceiveNs: int,
    hasGap: bool, hasRecordedOnly: bool, compatibility: Compatibility)

  function KeyOf(r: Record): Key { Key(r.sourceId, r.sourceGeneration, r.channel) }

  function Fresh(k: nat, shard: nat, key: Key): Entry {
    Entry(k, key, shard, 0, 0, 0, 0, 0, 0, false, false, ExactTraderReplay)
  }

  function MinReceive(first: int, r: Record): int {
    if first == 0 || r.receiveRealtimeNs < first then r.receiveRealtimeNs else first
  }

  function MaxReceive(last: int, r: Record): int {
    if r.receiveRealtimeNs > last then r.receiveRealtimeNs else last
  }

  /** One more row under this entry. */
  function Touch(e: Entry, r: Record): Entry {
    var f := e.(recordCount := e.recordCount + 1,
                firstEventSequence := if e.firstEventSequence == 0 then r.eventSequence else e.firstEventSequence,
                lastEventSequence := r.eventSequence,
                firstReceiveNs := MinReceive(e.firstReceiveNs, r),
                lastReceiveNs := MaxReceive(e.lastReceiveNs, r));
    var g := if Compatible(r) then f else f.(hasRecordedOnly := true, compatibility := RecordedOnly);
    if GapBoundary in r.flags then g.(hasGap := true, gapCount := e.gapCount + 1) else g
  }

  /** Find-or-add, then touch: the reader's view of one row. */
  function Observe(es: seq<Entry>, k: nat, shard: nat, r: Record): seq<Entry>
    decreases |es|
  {
    if es == [] then [Touch(Fresh(k, shard, KeyOf(r)), r)]
    else if es[0].key == KeyOf(r) then [Touch(es[0], r)] + es[1..]
    else [es[0]] + Observe(es[1..], k, shard, r)
  }

  function Recompute(k: nat, shard: nat, rows: seq<Record>): seq<Entry>
    decreases |rows|
  {
    if rows == [] then []
    else Observe(Recompute(k, shard, rows[..|rows| - 1]), k, shard, rows[|rows| - 1])
  }

  lemma {:induction false} RecomputeAppend(k: nat, shard: nat, rows: seq<Record>, r: Record)
    ensures Recompute(k, shard, rows + [r]) == Observe(Recompute(k, shard, rows), k, shard, r)
  {
    assert (rows + [r])[..|rows + [r]| - 1] == rows;
  }

  /** The entries of one segment, in table order. */
  function EntriesOf(index: seq<Entry>, k: nat): seq<Entry>
    decreases |index|
  {
    if index == [] then []
    else (if index[0].segmentNumber == k then [index[0]] else []) + EntriesOf(index[1..], k)
  }

  // --- The writer's table and the reader's derivation stay in step ----------------------------

  lemma {:induction false} ObserveCons(e: Entry, es: seq<Entry>, k: nat, shard: nat, r: Record)
    ensures e.key != KeyOf(r) ==> Observe([e] + es, k, shard, r) == [e] + Observe(es, k, shard, r)
    ensures [] + es == es && [] + Observe(es, k, shard, r) == Observe(es, k, shard, r)
  {
    assert ([e] + es)[1..] == es;
  }

  /** Touching a table entry in place is observing the row in its segment. */
  lemma {:induction false} TouchInPlace(index: seq<Entry>, at: nat, k: nat, shard: nat, r: Record)
    requires at < |index| && index[at].segmentNumber == k && index[at].key == KeyOf(r)
    requires forall i :: 0 <= i < at && index[i].segmentNumber == k ==> index[i].key != KeyOf(r)
    ensures EntriesOf(index[at := Touch(index[at], r)], k) == Observe(EntriesOf(index, k), k, shard, r)
    decreases |index|
  {
    var next := index[at := Touch(index[at], r)];
    if at == 0 {
      assert next[1..] == index[1..];
      assert EntriesOf(index, k)[1..] == EntriesOf(index[1..], k);
    } else {
      assert next[1..] == index[1..][at - 1 := Touch(index[at], r)];
      TouchInPlace(index[1..], at - 1, k, shard, r);
      ObserveCons(index[0], EntriesOf(index[1..], k), k, shard, r);
    }
  }

  /** A new entry at the end of the table is a new entry at the end of its segment. */
  lemma {:induction false} AddAtEnd(index: seq<Entry>, k: nat, shard: nat, r: Record)
    requires forall i :: 0 <= i < |index| && index[i].segmentNumber == k ==> index[i].key != KeyOf(r)
    ensures EntriesOf(index + [Touch(Fresh(k, shard, KeyOf(r)), r)], k) == Observe(EntriesOf(index, k), k, shard, r)
    decreases |index|
  {
    var e := Touch(Fresh(k, shard, KeyOf(r)), r);
    if index == [] {
      assert [e][1..] == [];
    } else {
      assert (index + [e])[1..] == index[1..] + [e];
      AddAtEnd(index[1..], k, shard, r);
      ObserveCons(index[0], EntriesOf(index[1..], k), k, shard, r);
    }
  }

  /** Neither change is visible in any other segment. */
  lemma {:induction false} OtherSegments(index: seq<Entry>, at: nat, e: Entry, k: nat)
    requires at <= |index| && e.segmentNumber != k
    requires at < |index| ==> index[at].segmentNumber != k
    ensures EntriesOf(if at < |index| then index[at := e] else index + [e], k) == EntriesOf(index, k)
    decreases |index|
  {
    if index == [] {
      assert [e][1..] == [];
    } else if at == 0 {
      assert index[at := e][1..] == index[1..];
    } else {
      OtherSegments(index[1..], at - 1, e, k);
      if at < |index| { assert index[at := e][1..] == index[1..][at - 1 := e]; }
      else { assert (index + [e])[1..] == index[1..] + [e]; }
    }
  }

  lemma {:induction false} NoEntries(index: seq<Entry>, k: nat)
    requires forall i :: 0 <= i < |index| ==> index[i].segmentNumber != k
    ensures EntriesOf(index, k) == []
    decreases |index|
  {
    if index != [] { NoEntries(index[1..], k); }
  }

  lemma {:induction false} EntriesMember(index: seq<Entry>, k: nat, e: Entry)
    ensures e in EntriesOf(index, k) <==> e in index && e.segmentNumber == k
    decreases |index|
  {
    if index != [] {
      EntriesMember(index[1..], k, e);
      assert index == [index[0]] + index[1..];
    }
  }

  // --- What the derived entries say ------------------------------------------------------------

  function SumEntries(es: seq<Entry>): nat
    decreases |es|
  {
    if es == [] then 0 else es[0].recordCount + SumEntries(es[1..])
  }

  ghost predicate DistinctKeys(es: seq<Entry>) {
    forall i, j :: 0 <= i < j < |es| ==> es[i].key != es[j].key
  }

  /** The clauses the sealed reader checks of every index entry on its own. */
  ghost predicate EntryOk(e: Entry, k: nat, shard: nat) {
    && e.segmentNumber == k && e.shardIndex == shard
    && e.key.sourceId != 0 && e.key.sourceGeneration != 0
    && e.recordCount != 0 && e.firstEventSequence != 0 && e.lastEventSequence != 0
    && 0 < e.firstReceiveNs <= e.lastReceiveNs
    && (e.hasGap <==> e.gapCount != 0)
    && e.compatibility != Unavailable
    && (e.hasRecordedOnly <==> e.compatibility == RecordedOnly)
  }

  ghost predicate EntriesOk(es: seq<Entry>, k: nat, shard: nat) {
    && DistinctKeys(es)
    && forall i :: 0 <= i < |es| ==> EntryOk(es[i], k, shard)
  }

  ghost predicate HasKey(es: seq<Entry>, key: Key) { exists i :: 0 <= i < |es| && es[i].key == key }

  lemma {:induction false} HasKeyCons(e: Entry, es: seq<Entry>, key: Key)
    ensures HasKey([e] + es, key) <==> e.key == key || HasKey(es, key)
  {
    var all := [e] + es;
    if e.key == key { assert all[0].key == key; }
    if HasKey(es, key) {
      var i :| 0 <= i < |es| && es[i].key == key;
      assert all[i + 1].key == key;
    }
    if HasKey(all, key) && e.key != key {
      var i :| 0 <= i < |all| && all[i].key == key;
      assert es[i - 1].key == key;
    }
  }

  lemma {:induction false} ObserveKeys(es: seq<Entry>, k: nat, shard: nat, r: Record, key: Key)
    ensures HasKey(Observe(es, k, shard, r), key) <==> HasKey(es, key) || key == KeyOf(r)
    decreases |es|
  {
    if es == [] {
      HasKeyCons(Touch(Fresh(k, shard, KeyOf(r)), r), [], key);
    } else {
      assert es == [es[0]] + es[1..];
      HasKeyCons(es[0], es[1..], key);
      if es[0].key == KeyOf(r) {
        HasKeyCons(Touch(es[0], r), es[1..], key);
      } else {
        ObserveKeys(es[1..], k, shard, r, key);
        HasKeyCons(es[0], Observe(es[1..], k, shard, r), key);
      }
    }
  }

  lemma {:induction false} EntriesOkCons(e: Entry, es: seq<Entry>, k: nat, shard: nat)
    requires EntryOk(e, k, shard) && EntriesOk(es, k, shard) && !HasKey(es, e.key)
    ensures EntriesOk([e] + es, k, shard)
    ensures SumEntries([e] + es) == e.recordCount + SumEntries(es)
  {
    assert ([e] + es)[1..] == es;
  }

  lemma {:induction false} EntriesOkTail(es: seq<Entry>, k: nat, shard: nat)
    requires es != [] && EntriesOk(es, k, shard)
    ensures EntryOk(es[0], k, shard) && EntriesOk(es[1..], k, shard) && !HasKey(es[1..], es[0].key)
  {
  }

  lemma {:induction false} ObserveOk(es: seq<Entry>, k: nat, shard: nat, r: Record)
    requires EntriesOk(es, k, shard) && ValidRecord(r)
    ensures EntriesOk(Observe(es, k, shard, r), k, shard)
    ensures SumEntries(Observe(es, k, shard, r)) == SumEntries(es) + 1
    ensures |es| <= |Observe(es, k, shard, r)| <= |es| + 1
    decreases |es|
  {
    if es == [] {
      EntriesOkCons(Touch(Fresh(k, shard, KeyOf(r)), r), [], k, shard);
    } else {
      EntriesOkTail(es, k, shard);
      if es[0].key == KeyOf(r) {
        EntriesOkCons(Touch(es[0], r), es[1..], k, shard);
      } else {
        ObserveOk(es[1..], k, shard, r);
        ObserveKeys(es[1..], k, shard, r, es[0].key);
        EntriesOkCons(es[0], Observe(es[1..], k, shard, r), k, shard);
      }
    }
  }

  /** A segment of valid rows yields entries that pass the reader's own checks and account for
      every row exactly once. */
  lemma {:induction false} RecomputeOk(k: nat, shard: nat, rows: seq<Record>)
    requires forall i :: 0 <= i < |rows| ==> ValidRecord(rows[i])
    ensures EntriesOk(Recompute(k, shard, rows), k, shard)
    ensures SumEntries(Recompute(k, shard, rows)) == |rows|
    ensures rows != [] ==> Recompute(k, shard, rows) != []
    decreases |rows|
  {
    if rows != [] {
      RecomputeOk(k, shard, rows[..|rows| - 1]);
      ObserveOk(Recompute(k, shard, rows[..|rows| - 1]), k, shard, rows[|rows| - 1]);
    }
  }

  // --- What an entry says of its rows -----------------------------------------------------------

  /** The rows under a key, in order. */
  function OfKey(rows: seq<Record>, key: Key): seq<Record> {
    if rows == [] then []
    else OfKey(rows[..|rows| - 1], key) + (if KeyOf(rows[|rows| - 1]) == key then [rows[|rows| - 1]] else [])
  }

  function GapRows(rows: seq<Record>): nat {
    if rows == [] then 0
    else GapRows(rows[..|rows| - 1]) + (if GapBoundary in rows[|rows| - 1].flags then 1 else 0)
  }

  /** The receive times of the rows span exactly this interval. */
  ghost predicate Spans(rows: seq<Record>, first: int, last: int) {
    && (forall i :: 0 <= i < |rows| ==> first <= rows[i].receiveRealtimeNs <= last)
    && (exists i :: 0 <= i < |rows| && rows[i].receiveRealtimeNs == first)
    && (exists i :: 0 <= i < |rows| && rows[i].receiveRealtimeNs == last)
  }

  /** The entry is the summary of its rows. */
  ghost predicate Summarises(e: Entry, rows: seq<Record>) {
    && rows != [] && e.recordCount == |rows| && e.gapCount == GapRows(rows)
    && e.firstEventSequence == rows[0].eventSequence && e.lastEventSequence == rows[|rows| - 1].eventSequence
    && Spans(rows, e.firstReceiveNs, e.lastReceiveNs)
    && (e.hasGap <==> exists i :: 0 <= i < |rows| && GapBoundary in rows[i].flags)
    && (e.hasRecordedOnly <==> exists i :: 0 <= i < |rows| && !Compatible(rows[i]))
    && e.compatibility == if e.hasRecordedOnly then RecordedOnly else ExactTraderReplay
  }

  lemma {:induction false} SpansMore(rows: seq<Record>, first: int, last: int, r: Record)
    requires Spans(rows, first, last) && first > 0
    ensures Spans(rows + [r], MinReceive(first, r), MaxReceive(last, r))
  {
    var more := rows + [r];
    assert more[|rows|] == r && forall i :: 0 <= i < |rows| ==> more[i] == rows[i];
  }

  lemma {:induction false} TouchSummarises(e: Entry, rows: seq<Record>, r: Record)
    requires Summarises(e, rows) && ValidRecord(r) && forall i :: 0 <= i < |rows| ==> ValidRecord(rows[i])
    ensures Summarises(Touch(e, r), rows + [r])
  {
    var more := rows + [r];
    assert more[..|rows|] == rows;
    assert more[|rows|] == r && forall i :: 0 <= i < |rows| ==> more[i] == rows[i];
    SpansMore(rows, e.firstReceiveNs, e.lastReceiveNs, r);
  }

  lemma {:induction false} FreshSummarises(k: nat, shard: nat, r: Record)
    requires ValidRecord(r)
    ensures Summarises(Touch(Fresh(k, shard, KeyOf(r)), r), [r])
  {
    assert [r][..0] == [] && [r][0] == r;
  }

  lemma {:induction false} OfKeyMore(rows: seq<Record>, r: Record, key: Key)
    ensures OfKey(rows + [r], key) == OfKey(rows, key) + if KeyOf(r) == key then [r] else []
  {
    assert (rows + [r])[..|rows|] == rows;
  }

  lemma {:induction false} OfKeyValid(rows: seq<Record>, key: Key)
    requires forall i :: 0 <= i < |rows| ==> ValidRecord(rows[i])
    ensures forall i :: 0 <= i < |OfKey(rows, key)| ==> ValidRecord(OfKey(rows, key)[i])
  {
    if rows != [] { OfKeyValid(rows[..|rows| - 1], key); }
  }

  ghost predicate Recounts(e: Entry, rows: seq<Record>) { Summarises(e, OfKey(rows, e.key)) }

  lemma {:induction false} TouchRecounts(e: Entry, rows: seq<Record>, r: Record)
    requires Recounts(e, rows) && e.key == KeyOf(r) && ValidRecord(r)
    requires forall i :: 0 <= i < |rows| ==> ValidRecord(rows[i])
    ensures Recounts(Touch(e, r), rows + [r])
  {
    OfKeyMore(rows, r, e.key);
    OfKeyValid(rows, e.key);
    TouchSummarises(e, OfKey(rows, e.key), r);
  }

  lemma {:induction false} FreshRecounts(k: nat, shard: nat, rows: seq<Record>, r: Record)
    requires OfKey(rows, KeyOf(r)) == [] && ValidRecord(r)
    ensures Recounts(Touch(Fresh(k, shard, KeyOf(r)), r), rows + [r])
  {
    OfKeyMore(rows, r, KeyOf(r));
    FreshSummarises(k, shard, r);
    assert [] + [r] == [r];
  }

  lemma {:induction false} OtherRecounts(e: Entry, rows: seq<Record>, r: Record)
    requires Recounts(e, rows) && e.key != KeyOf(r)
    ensures Recounts(e, rows + [r])
  {
    OfKeyMore(rows, r, e.key);
    assert OfKey(rows, e.key) + [] == OfKey(rows, e.key);
  }

  /** The entries are the summaries of the rows under their keys, and every row has one. */
  ghost predicate Indexes(es: seq<Entry>, rows: seq<Record>) {
    (forall i :: 0 <= i < |es| ==> Recounts(es[i], rows)) && forall key :: OfKey(rows, key) != [] ==> HasKey(es, key)
  }

  /** Where observing a row changes the entries. */
  lemma {:induction false} ObserveAt(es: seq<Entry>, k: nat, shard: nat, r: Record) returns (at: nat)
    ensures at <= |es| && forall i :: 0 <= i < at ==> es[i].key != KeyOf(r)
    ensures at < |es| ==> es[at].key == KeyOf(r) && Observe(es, k, shard, r) == es[at := Touch(es[at], r)]
    ensures at == |es| ==> Observe(es, k, shard, r) == es + [Touch(Fresh(k, shard, KeyOf(r)), r)]
    decreases |es|
  {
    if es == [] || es[0].key == KeyOf(r) {
      at := 0;
    } else {
      var tail := ObserveAt(es[1..], k, shard, r);
      at := tail + 1;
      forall i | 0 < i < at
        ensures es[i].key != KeyOf(r)
      {
        assert es[i] == es[1..][i - 1];
      }
    }
  }

  lemma {:induction false} ObserveIndexes(es: seq<Entry>, k: nat, shard: nat, rows: seq<Record>, r: Record)
    requires DistinctKeys(es) && Indexes(es, rows) && ValidRecord(r)
    requires forall i :: 0 <= i < |rows| ==> ValidRecord(rows[i])
    ensures Indexes(Observe(es, k, shard, r), rows + [r])
  {
    var at := ObserveAt(es, k, shard, r);
    var after := Observe(es, k, shard, r);
    forall i | 0 <= i < |after|
      ensures Recounts(after[i], rows + [r])
    {
      if i != at {
        OtherRecounts(es[i], rows, r);
      } else if at < |es| {
        TouchRecounts(es[at], rows, r);
      } else {
        assert !HasKey(es, KeyOf(r));
        FreshRecounts(k, shard, rows, r);
      }
    }
    forall key | OfKey(rows + [r], key) != []
      ensures HasKey(after, key)
    {
      OfKeyMore(rows, r, key);
      ObserveKeys(es, k, shard, r, key);
    }
  }

  ghost predicate IndexedBy(k: nat, shard: nat, rows: seq<Record>) { Indexes(Recompute(k, shard, rows), rows) }

  lemma {:induction false} IndexedNone(k: nat, shard: nat)
    ensures IndexedBy(k, shard, [])
  {
  }

  lemma {:induction false} IndexedMore(k: nat, shard: nat, rows: seq<Record>, r: Record)
    requires IndexedBy(k, shard, rows) && ValidRecord(r) && forall i :: 0 <= i < |rows| ==> ValidRecord(rows[i])
    ensures IndexedBy(k, shard, rows + [r])
  {
    RecomputeOk(k, shard, rows);
    RecomputeAppend(k, shard, rows, r);
    ObserveIndexes(Recompute(k, shard, rows), k, shard, rows, r);
  }

  /** The index derived from the rows of a segment has, for each source, generation and channel among
      them, one entry that counts its rows and gap rows, names the first and the last event, spans
      the receive times and says whether a row carries a gap mark or is recorded only. */
  lemma {:induction false} RecomputeIndexes(k: nat, shard: nat, rows: seq<Record>)
    requires forall i :: 0 <= i < |rows| ==> ValidRecord(rows[i])
    ensures IndexedBy(k, shard, rows)
    decreases |rows|
  {
    if rows == [] {
      IndexedNone(k, shard);
    } else {
      var front := rows[..|rows| - 1];
      assert front + [rows[|rows| - 1]] == rows;
      RecomputeIndexes(k, shard, front);
      IndexedMore(k, shard, front, rows[|rows| - 1]);
    }
  }
}
