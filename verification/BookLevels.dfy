/** One side of an order book as a map from price to quantity, and what its updates mean: the last
    quantity written for a price wins, and a zero quantity removes the price
    (src/Runtime/src/Replay/BookState.cpp). */
module BookLevels {
  datatype PricePair = PricePair(price: int, qty: int, side: int)
  datatype DepthRow = DepthRow(tsNs: int, levels: seq<PricePair>)

  type Side = map<int, int>
  type Level = (int, int)

  predicate OnSide(p: PricePair, bid: bool) { (p.side == 0) == bid }

  /** The quantity at a price, 0 where there is no level. */
  function Quantity(m: Side, price: int): int { if price in m then m[price] else 0 }

  /** No level is kept at quantity 0. */
  ghost predicate NoneEmpty(m: Side) { forall price :: price in m ==> m[price] != 0 }

  function Put(m: Side, p: PricePair): Side { if p.qty == 0 then m - {p.price} else m[p.price := p.qty] }

  /** One side of a book after a sequence of levels. */
  function Fold(m: Side, levels: seq<PricePair>, bid: bool): Side
    decreases |levels|
  {
    if levels == [] then m
    else
      var n := |levels| - 1;
      var before := Fold(m, levels[..n], bid);
      if OnSide(levels[n], bid) then Put(before, levels[n]) else before
  }

  /** One side of a book after a sequence of depth rows. */
  function FoldRows(rows: seq<DepthRow>, bid: bool): Side
    decreases |rows|
  {
    if rows == [] then map[] else Fold(FoldRows(rows[..|rows| - 1], bid), rows[|rows| - 1].levels, bid)
  }

  // --- The last write wins --------------------------------------------------------------------------

  /** Level j is about this price on this side. */
  predicate Mentions(levels: seq<PricePair>, j: int, bid: bool, price: int) {
    0 <= j < |levels| && OnSide(levels[j], bid) && levels[j].price == price
  }

  /** Level j is the last one about this price. */
  ghost predicate LastIn(levels: seq<PricePair>, j: int, bid: bool, price: int) {
    Mentions(levels, j, bid, price) && forall k {:trigger Mentions(levels, k, bid, price)} :: j < k ==>
        !Mentions(levels, k, bid, price)
  }

  ghost predicate Silent(levels: seq<PricePair>, bid: bool, price: int) {
    forall k {:trigger Mentions(levels, k, bid, price)} :: !Mentions(levels, k, bid, price)
  }

  lemma {:induction false} FoldKeeps(m: Side, levels: seq<PricePair>, bid: bool)
    requires NoneEmpty(m)
    ensures NoneEmpty(Fold(m, levels, bid))
    decreases |levels|
  {
    if levels != [] { FoldKeeps(m, levels[..|levels| - 1], bid); }
  }

  /** What a sequence of levels leaves at a price. */
  lemma {:induction false} FoldQuantity(m: Side, levels: seq<PricePair>, bid: bool, price: int)
    ensures Silent(levels, bid, price) ==> Quantity(Fold(m, levels, bid), price) == Quantity(m, price)
    ensures forall j :: LastIn(levels, j, bid, price) ==> Quantity(Fold(m, levels, bid), price) == levels[j].qty
    decreases |levels|
  {
    if levels != [] {
      var n := |levels| - 1;
      FoldQuantity(m, levels[..n], bid, price);
      WithoutLast(levels, n, bid, price);
    }
  }

  lemma {:induction false} WithoutLast(levels: seq<PricePair>, n: nat, bid: bool, price: int)
    requires |levels| == n + 1
    ensures Silent(levels, bid, price) ==> Silent(levels[..n], bid, price) && !Mentions(levels, n, bid, price)
    ensures forall j :: LastIn(levels, j, bid, price) ==>
                        if Mentions(levels, n, bid, price) then j == n else j < n && LastIn(levels[..n], j, bid, price)
  {
    forall k
      ensures k < n ==> (Mentions(levels[..n], k, bid, price) <==> Mentions(levels, k, bid, price))
      ensures k >= n ==> !Mentions(levels[..n], k, bid, price)
    {
    }
  }

  /** A level of a sequence of rows that is about this price on this side. */
  ghost predicate Written(rows: seq<DepthRow>, a: int, j: int, bid: bool, price: int) {
    0 <= a < |rows| && Mentions(rows[a].levels, j, bid, price)
  }

  /** Nothing later is about this price. */
  ghost predicate LastWrite(rows: seq<DepthRow>, a: int, j: int, bid: bool, price: int) {
    && Written(rows, a, j, bid, price)
    && forall b, k {:trigger Written(rows, b, k, bid, price)} :: Written(rows, b, k, bid, price) ==>
        b < a || (b == a && k <= j)
  }

  ghost predicate NeverWritten(rows: seq<DepthRow>, bid: bool, price: int) {
    forall b, k {:trigger Written(rows, b, k, bid, price)} :: !Written(rows, b, k, bid, price)
  }

  lemma {:induction false} RowsKeep(rows: seq<DepthRow>, bid: bool)
    ensures NoneEmpty(FoldRows(rows, bid))
    decreases |rows|
  {
    if rows != [] {
      RowsKeep(rows[..|rows| - 1], bid);
      FoldKeeps(FoldRows(rows[..|rows| - 1], bid), rows[|rows| - 1].levels, bid);
    }
  }

  lemma {:induction false} EarlierWrites(rows: seq<DepthRow>, n: nat, bid: bool, price: int)
    requires |rows| == n + 1
    ensures forall b, k :: b < n ==> (Written(rows[..n], b, k, bid, price) <==> Written(rows, b, k, bid, price))
  {
  }

  /** After any depth rows a price has the quantity written last, or none. */
  lemma {:induction false} RowsQuantity(rows: seq<DepthRow>, bid: bool, price: int)
    ensures NeverWritten(rows, bid, price) ==> Quantity(FoldRows(rows, bid), price) == 0
    ensures forall a, j :: LastWrite(rows, a, j, bid, price) ==>
            Quantity(FoldRows(rows, bid), price) == rows[a].levels[j].qty
    decreases |rows|
  {
    if rows != [] {
      var n := |rows| - 1;
      var levels := rows[n].levels;
      RowsQuantity(rows[..n], bid, price);
      FoldQuantity(FoldRows(rows[..n], bid), levels, bid, price);
      EarlierWrites(rows, n, bid, price);
      forall a, j | LastWrite(rows, a, j, bid, price)
        ensures Quantity(FoldRows(rows, bid), price) == rows[a].levels[j].qty
      {
        if a == n {
          LastLevel(rows, n, j, bid, price);
        } else {
          QuietLast(rows, n, a, j, bid, price);
        }
      }
      if NeverWritten(rows, bid, price) {
        forall k ensures !Mentions(levels, k, bid, price) { assert !Written(rows, n, k, bid, price); }
        assert NeverWritten(rows[..n], bid, price);
      }
    }
  }

  lemma {:induction false} LastLevel(rows: seq<DepthRow>, n: nat, j: int, bid: bool, price: int)
    requires |rows| == n + 1 && LastWrite(rows, n, j, bid, price)
    ensures LastIn(rows[n].levels, j, bid, price)
  {
    forall k | j < k
      ensures !Mentions(rows[n].levels, k, bid, price)
    {
      assert Written(rows, n, k, bid, price) ==> k <= j;
    }
  }

  lemma {:induction false} QuietLast(rows: seq<DepthRow>, n: nat, a: int, j: int, bid: bool, price: int)
    requires |rows| == n + 1 && a < n && LastWrite(rows, a, j, bid, price)
    ensures Silent(rows[n].levels, bid, price) && LastWrite(rows[..n], a, j, bid, price)
  {
    forall k
      ensures !Mentions(rows[n].levels, k, bid, price)
    {
      assert Written(rows, n, k, bid, price) ==> n < a || (n == a && k <= j);
    }
    EarlierWrites(rows, n, bid, price);
  }

  lemma {:induction false} LastInExists(levels: seq<PricePair>, k: nat, bid: bool, price: int) returns (j: nat)
    requires Mentions(levels, k, bid, price)
    ensures LastIn(levels, j, bid, price)
    decreases |levels| - k
  {
    if later :| k < later && Mentions(levels, later, bid, price) {
      j := LastInExists(levels, later, bid, price);
    } else {
      j := k;
    }
  }

  /** A price that was written was written last somewhere. */
  lemma {:induction false} LastWriteExists(
      rows: seq<DepthRow>, b: nat, k: nat, bid: bool, price: int) returns (a: nat, j: nat)
    requires Written(rows, b, k, bid, price)
    ensures LastWrite(rows, a, j, bid, price)
    decreases |rows| - b
  {
    if later, n :| b < later && Written(rows, later, n, bid, price) {
      a, j := LastWriteExists(rows, later, n, bid, price);
    } else {
      a := b;
      j := LastInExists(rows[b].levels, k, bid, price);
    }
  }

  // --- Sorted views -----------------------------------------------------------------------------------

  /** Price p is shown before price q. */
  predicate Ahead(p: int, q: int, descending: bool) { if descending then p > q else p < q }

  ghost predicate Ordered(v: seq<Level>, descending: bool) {
    forall i, j :: 0 <= i < j < |v| ==> Ahead(v[i].0, v[j].0, descending)
  }

  /** The sequence has exactly the levels of the map. */
  ghost predicate Lists(v: seq<Level>, m: Side) {
    && (forall i :: 0 <= i < |v| ==> v[i].0 in m && m[v[i].0] == v[i].1)
    && forall price {:trigger price in m} :: price in m ==> (price, m[price]) in v
  }

  /** The view of a side: its levels, best price first. */
  ghost predicate IsView(v: seq<Level>, m: Side, descending: bool) { Ordered(v, descending) && Lists(v, m) }

  lemma {:induction false} ViewHead(u: seq<Level>, v: seq<Level>, m: Side, descending: bool)
    requires IsView(u, m, descending) && IsView(v, m, descending) && u != []
    ensures v != [] && u[0] == v[0]
  {
    assert (u[0].0, m[u[0].0]) in v && (v[0].0, m[v[0].0]) in u;
    var i :| 0 <= i < |v| && v[i] == u[0];
    var j :| 0 <= j < |u| && u[j] == v[0];
    assert i == 0 || Ahead(v[0].0, v[i].0, descending);
    assert j == 0 || Ahead(u[0].0, u[j].0, descending);
  }

  lemma {:induction false} ViewTail(v: seq<Level>, m: Side, descending: bool)
    requires IsView(v, m, descending) && v != []
    ensures IsView(v[1..], m - {v[0].0}, descending)
  {
    forall price | price in m - {v[0].0}
      ensures (price, m[price]) in v[1..]
    {
      var i :| 0 <= i < |v| && v[i] == (price, m[price]);
      assert v[1..][i - 1] == v[i];
    }
    forall i | 0 <= i < |v[1..]|
      ensures v[1..][i].0 in m - {v[0].0}
    {
      assert Ahead(v[0].0, v[i + 1].0, descending);
    }
  }

  /** A side has one view. */
  lemma {:induction false} ViewUnique(u: seq<Level>, v: seq<Level>, m: Side, descending: bool)
    requires IsView(u, m, descending) && IsView(v, m, descending)
    ensures u == v
    decreases |u|
  {
    if u == [] {
      if v != [] { ViewHead(v, u, m, descending); }
    } else {
      ViewHead(u, v, m, descending);
      ViewTail(u, m, descending);
      ViewTail(v, m, descending);
      ViewUnique(u[1..], v[1..], m - {u[0].0}, descending);
      assert u == [u[0]] + u[1..] && v == [v[0]] + v[1..];
    }
  }

  /** Put a level in its place. */
  function Insert(v: seq<Level>, x: Level, descending: bool): seq<Level>
    decreases |v|
  {
    if v == [] || Ahead(x.0, v[0].0, descending) then [x] + v else [v[0]] + Insert(v[1..], x, descending)
  }

  function Sorted(v: seq<Level>, descending: bool): seq<Level>
    decreases |v|
  {
    if v == [] then [] else Insert(Sorted(v[1..], descending), v[0], descending)
  }

  lemma {:induction false} InsertHas(v: seq<Level>, x: Level, descending: bool)
    ensures forall y :: y in Insert(v, x, descending) <==> y == x || y in v
    decreases |v|
  {
    if v != [] && !Ahead(x.0, v[0].0, descending) {
      InsertHas(v[1..], x, descending);
      assert forall y :: y in v <==> y == v[0] || y in v[1..];
    }
  }

  lemma {:induction false} InsertOrdered(v: seq<Level>, x: Level, descending: bool)
    requires Ordered(v, descending) && forall i :: 0 <= i < |v| ==> v[i].0 != x.0
    ensures Ordered(Insert(v, x, descending), descending)
    decreases |v|
  {
    if v == [] {
    } else if Ahead(x.0, v[0].0, descending) {
      assert forall j :: 0 < j < |v| ==> Ahead(v[0].0, v[j].0, descending);
    } else {
      var rest := Insert(v[1..], x, descending);
      InsertOrdered(v[1..], x, descending);
      InsertHas(v[1..], x, descending);
      forall j | 0 <= j < |rest|
        ensures Ahead(v[0].0, rest[j].0, descending)
      {
        assert rest[j] in rest;
        if rest[j] != x {
          var k :| 0 <= k < |v[1..]| && v[1..][k] == rest[j];
          assert v[k + 1] == rest[j];
        }
      }
    }
  }

  ghost predicate Distinct(v: seq<Level>) { forall i, j :: 0 <= i < j < |v| ==> v[i].0 != v[j].0 }

  lemma {:induction false} SortedHas(v: seq<Level>, descending: bool)
    ensures forall y :: y in Sorted(v, descending) <==> y in v
    decreases |v|
  {
    if v != [] {
      SortedHas(v[1..], descending);
      InsertHas(Sorted(v[1..], descending), v[0], descending);
      assert forall y :: y in v <==> y == v[0] || y in v[1..];
    }
  }

  lemma {:induction false} SortedOrdered(v: seq<Level>, descending: bool)
    requires Distinct(v)
    ensures Ordered(Sorted(v, descending), descending)
    decreases |v|
  {
    if v != [] {
      var rest := Sorted(v[1..], descending);
      SortedOrdered(v[1..], descending);
      SortedHas(v[1..], descending);
      forall i | 0 <= i < |rest|
        ensures rest[i].0 != v[0].0
      {
        assert rest[i] in v[1..];
        var k :| 0 <= k < |v[1..]| && v[1..][k] == rest[i];
        assert v[k + 1] == rest[i];
      }
      InsertOrdered(rest, v[0], descending);
    }
  }

  /** Sorting the levels of a side, in whatever order they were met, gives its view. */
  lemma {:induction false} SortedIsView(v: seq<Level>, m: Side, descending: bool)
    requires Lists(v, m) && Distinct(v)
    ensures IsView(Sorted(v, descending), m, descending)
  {
    SortedHas(v, descending);
    SortedOrdered(v, descending);
    var s := Sorted(v, descending);
    forall i | 0 <= i < |s|
      ensures s[i].0 in m && m[s[i].0] == s[i].1
    {
      assert s[i] in v;
    }
  }
}
