/** The replay book: two maps changed in place and two sorted views rebuilt when they are asked for
    (src/Runtime/src/Replay/BookState.cpp). */
module BookObject {
  import opened BookLevels
  import opened BookBest

  /** Walk a map in whatever order it yields. */
  method Entries(m: Side) returns (es: seq<Level>)
    ensures Walks(es, m)
  {
    es := [];
    var left := m.Keys;
    while left != {}
      invariant left <= m.Keys && Distinct(es)
      invariant forall i :: 0 <= i < |es| ==> es[i].0 in m && es[i].0 !in left && m[es[i].0] == es[i].1
      invariant forall price {:trigger price in m} :: price in m && price !in left ==> (price, m[price]) in es
      decreases |left|
    {
      assert (forall price :: price !in left) ==> left == {};
      var price :| price in left;
      ghost var before := es;
      es := es + [(price, m[price])];
      left := left - {price};
      assert es[|before|] == (price, m[price]) && forall x :: x in before ==> x in es;
    }
  }

  /** The levels a filter lets through; a bound of 0 or less is no bound. */
  ghost function Kept(m: Side, low: int, high: int): Side {
    map p | p in m && Passes(p, m[p], low, high) :: m[p]
  }

  predicate Passes(price: int, qty: int, low: int, high: int) {
    qty > 0 && (low > 0 ==> price >= low) && (high > 0 ==> price <= high)
  }

  /** The first levels of a view; a limit of 0 is no limit. */
  function Limited(v: seq<Level>, limit: nat): seq<Level> { if 0 < limit < |v| then v[..limit] else v }

  method FilteredLevels(m: Side, low: int, high: int, limit: nat, descending: bool) returns (out: seq<Level>)
    ensures exists v :: IsView(v, Kept(m, low, high), descending) && out == Limited(v, limit)
  {
    var es := Entries(m);
    out := [];
    var n := 0;
    while n < |es|
      invariant 0 <= n <= |es| && Distinct(out)
      invariant forall i :: 0 <= i < |out| ==> out[i] in es[..n] && Passes(out[i].0, out[i].1, low, high)
      invariant forall i :: 0 <= i < n && Passes(es[i].0, es[i].1, low, high) ==> es[i] in out
    {
      assert forall x :: x in es[..n] ==> x in es[..n + 1] && x.0 != es[n].0;
      assert es[..n + 1][n] == es[n];
      if Passes(es[n].0, es[n].1, low, high) {
        ghost var before := out;
        out := out + [es[n]];
        assert out[|before|] == es[n] && forall x :: x in before ==> x in out;
      }
      n := n + 1;
    }
    assert Lists(out, Kept(m, low, high)) by {
      forall price | price in Kept(m, low, high)
        ensures (price, m[price]) in out
      {
        var i :| 0 <= i < |es| && es[i] == (price, m[price]);
      }
    }
    SortedIsView(out, Kept(m, low, high), descending);
    ghost var v := Sorted(out, descending);
    out := Limited(Sorted(out, descending), limit);
    assert IsView(v, Kept(m, low, high), descending) && out == Limited(v, limit);
  }

  function Positive(levels: seq<PricePair>): seq<PricePair>
    decreases |levels|
  {
    if levels == [] then []
    else Positive(levels[..|levels| - 1]) + (if levels[|levels| - 1].qty > 0 then [levels[|levels| - 1]] else [])
  }

  /** One side of the book of a snapshot: its levels of positive quantity. */
  ghost predicate FromSnapshot(m: Side, levels: seq<PricePair>, bid: bool) { m == Fold(map[], Positive(levels), bid) }

  lemma {:induction false} SnapshotMore(m: Side, levels: seq<PricePair>, p: PricePair, bid: bool)
    requires FromSnapshot(m, levels, bid)
    ensures FromSnapshot(if p.qty > 0 && OnSide(p, bid) then Put(m, p) else m, levels + [p], bid)
  {
    assert (levels + [p])[..|levels|] == levels;
    assert Positive(levels + [p]) == if p.qty > 0 then Positive(levels) + [p] else Positive(levels);
    FoldMore(map[], Positive(levels), p, bid);
  }

  lemma {:induction false} OneMore(levels: seq<PricePair>, n: nat)
    requires n < |levels|
    ensures levels[..n + 1] == levels[..n] + [levels[n]]
  {
  }

  lemma {:induction false} FoldMore(m: Side, levels: seq<PricePair>, p: PricePair, bid: bool)
    ensures Fold(m, levels + [p], bid) == if OnSide(p, bid) then Put(Fold(m, levels, bid), p) else Fold(m, levels, bid)
  {
    assert (levels + [p])[..|levels|] == levels;
  }

  class BookState {
    var bids: Side
    var asks: Side
    var bidView: seq<Level>
    var askView: seq<Level>
    var bidsDirty: bool
    var asksDirty: bool
    var lastTsNs: int

    /** A view that is not marked dirty is the view of its map. */
    ghost predicate Valid()
      reads this
    {
      && NoneEmpty(bids) && NoneEmpty(asks)
      && (!bidsDirty ==> IsView(bidView, bids, true)) && (!asksDirty ==> IsView(askView, asks, false))
    }

    constructor ()
      ensures Valid() && bids == map[] && asks == map[] && lastTsNs == 0
    {
      bids, asks, bidView, askView, bidsDirty, asksDirty, lastTsNs := map[], map[], [], [], true, true, 0;
    }

    method Reset()
      modifies this
      ensures Valid() && bids == map[] && asks == map[] && lastTsNs == 0 && !bidsDirty && !asksDirty
    {
      bids, asks, bidView, askView, bidsDirty, asksDirty, lastTsNs := map[], map[], [], [], false, false, 0;
    }

    method ApplyLevel(p: PricePair)
      requires Valid()
      modifies this`bids, this`asks, this`bidsDirty, this`asksDirty
      ensures Valid()
      ensures bids == (if OnSide(p, true) then Put(old(bids), p) else old(bids))
      ensures asks == (if OnSide(p, false) then Put(old(asks), p) else old(asks))
    {
      if p.side == 0 {
        bids := if p.qty == 0 then bids - {p.price} else bids[p.price := p.qty];
        bidsDirty := true;
      } else {
        asks := if p.qty == 0 then asks - {p.price} else asks[p.price := p.qty];
        asksDirty := true;
      }
    }

    method ApplyDelta(row: DepthRow)
      requires Valid()
      modifies this`bids, this`asks, this`bidsDirty, this`asksDirty, this`lastTsNs
      ensures Valid() && lastTsNs == row.tsNs
      ensures bids == Fold(old(bids), row.levels, true) && asks == Fold(old(asks), row.levels, false)
    {
      var n := 0;
      while n < |row.levels|
        invariant 0 <= n <= |row.levels| && Valid()
        invariant bids == Fold(old(bids), row.levels[..n], true) && asks == Fold(old(asks), row.levels[..n], false)
      {
        FoldMore(old(bids), row.levels[..n], row.levels[n], true);
        FoldMore(old(asks), row.levels[..n], row.levels[n], false);
        OneMore(row.levels, n);
        ApplyLevel(row.levels[n]);
        n := n + 1;
      }
      assert row.levels[..n] == row.levels;
      lastTsNs := row.tsNs;
    }

    /** A snapshot replaces the book; its levels without a positive quantity are passed over. */
    method ApplySnapshot(row: DepthRow)
      modifies this`bids, this`asks, this`bidsDirty, this`asksDirty, this`lastTsNs
      ensures Valid() && lastTsNs == row.tsNs
      ensures FromSnapshot(bids, row.levels, true) && FromSnapshot(asks, row.levels, false)
    {
      bids, asks, bidsDirty, asksDirty := map[], map[], true, true;
      var n := 0;
      while n < |row.levels|
        invariant 0 <= n <= |row.levels| && Valid()
        invariant FromSnapshot(bids, row.levels[..n], true) && FromSnapshot(asks, row.levels[..n], false)
      {
        var p := row.levels[n];
        SnapshotMore(bids, row.levels[..n], p, true);
        SnapshotMore(asks, row.levels[..n], p, false);
        OneMore(row.levels, n);
        if p.qty > 0 { ApplyLevel(p); }
        n := n + 1;
      }
      assert row.levels[..n] == row.levels;
      lastTsNs := row.tsNs;
    }

    /** The bids, highest first; rebuilt only if they changed since. */
    method Bids() returns (v: seq<Level>)
      requires Valid()
      modifies this`bidView, this`bidsDirty
      ensures Valid() && IsView(v, bids, true) && v == bidView && !bidsDirty
    {
      if bidsDirty {
        var es := Entries(bids);
        SortedIsView(es, bids, true);
        bidView := Sorted(es, true);
        bidsDirty := false;
      }
      v := bidView;
    }

    /** The asks, lowest first. */
    method Asks() returns (v: seq<Level>)
      requires Valid()
      modifies this`askView, this`asksDirty
      ensures Valid() && IsView(v, asks, false) && v == askView && !asksDirty
    {
      if asksDirty {
        var es := Entries(asks);
        SortedIsView(es, asks, false);
        askView := Sorted(es, false);
        asksDirty := false;
      }
      v := askView;
    }

    method FilteredBids(low: int, high: int, limit: nat) returns (out: seq<Level>)
      ensures exists v :: IsView(v, Kept(bids, low, high), true) && out == Limited(v, limit)
    {
      out := FilteredLevels(bids, low, high, limit, true);
    }

    method FilteredAsks(low: int, high: int, limit: nat) returns (out: seq<Level>)
      ensures exists v :: IsView(v, Kept(asks, low, high), false) && out == Limited(v, limit)
    {
      out := FilteredLevels(asks, low, high, limit, false);
    }

    method BestBidPrice() returns (best: int)
      ensures exists qty :: IsBestBid(bids, (best, qty))
    {
      var es := Entries(bids);
      best := 0;
      for n := 0 to |es|
        invariant best == BidFold(es[..n]).0
      {
        assert es[..n + 1][..n] == es[..n];
        if es[n].1 > 0 && es[n].0 > best { best := es[n].0; }
      }
      assert es[..|es|] == es;
      BidFoldBest(es, bids);
      assert BidFold(es) == (best, BidFold(es).1);
    }

    method BestBidQty() returns (qty: int)
      ensures exists best :: IsBestBid(bids, (best, qty))
    {
      var es := Entries(bids);
      var best := 0;
      qty := 0;
      for n := 0 to |es|
        invariant (best, qty) == BidFold(es[..n])
      {
        assert es[..n + 1][..n] == es[..n];
        if es[n].1 > 0 && es[n].0 > best { best, qty := es[n].0, es[n].1; }
      }
      assert es[..|es|] == es;
      BidFoldBest(es, bids);
    }

    method BestAskPrice() returns (best: int)
      ensures !ZeroAsk(asks) ==> exists qty :: IsBestAsk(asks, (best, qty))
    {
      var es := Entries(asks);
      best := 0;
      for n := 0 to |es|
        invariant best == AskFold(es[..n]).0
      {
        assert es[..n + 1][..n] == es[..n];
        if es[n].1 > 0 && (best == 0 || es[n].0 < best) { best := es[n].0; }
      }
      assert es[..|es|] == es;
      if !ZeroAsk(asks) {
        AskFoldBest(es, asks);
        assert AskFold(es) == (best, AskFold(es).1);
      }
    }

    method BestAskQty() returns (qty: int)
      ensures !ZeroAsk(asks) ==> exists best :: IsBestAsk(asks, (best, qty))
    {
      var es := Entries(asks);
      var best := 0;
      qty := 0;
      for n := 0 to |es|
        invariant (best, qty) == AskFold(es[..n])
      {
        assert es[..n + 1][..n] == es[..n];
        if es[n].1 > 0 && (best == 0 || es[n].0 < best) { best, qty := es[n].0, es[n].1; }
      }
      assert es[..|es|] == es;
      if !ZeroAsk(asks) { AskFoldBest(es, asks); }
    }
  }
}
