/** Best prices and quantities of a book side, as the replay book finds them by walking its hash map
    in whatever order that yields (src/Runtime/src/Replay/BookState.cpp, bestBidPrice and the rest). */
module BookBest {
  import opened BookLevels

  /** The levels of a side in some order of iteration. */
  ghost predicate Walks(es: seq<Level>, m: Side) { Lists(es, m) && Distinct(es) }

  predicate Live(m: Side, price: int) { price in m && m[price] > 0 }

  // --- Bids -----------------------------------------------------------------------------------------

  function BidFold(es: seq<Level>): Level
    decreases |es|
  {
    if es == [] then (0, 0)
    else
      var best, x := BidFold(es[..|es| - 1]), es[|es| - 1];
      if x.1 > 0 && x.0 > best.0 then x else best
  }

  /** The highest live bid above price 0, or nothing. */
  ghost predicate IsBestBid(m: Side, best: Level) {
    if exists p :: Live(m, p) && p > 0 then
      Live(m, best.0) && best.1 == m[best.0] && best.0 > 0 && forall p :: Live(m, p) ==> p <= best.0
    else best == (0, 0)
  }

  lemma {:induction false} BidFoldTops(es: seq<Level>)
    ensures var b := BidFold(es); b == (0, 0) || (b in es && b.0 > 0 && b.1 > 0)
    ensures forall i :: 0 <= i < |es| && es[i].1 > 0 ==> es[i].0 <= BidFold(es).0 || es[i].0 <= 0
    decreases |es|
  {
    if es != [] {
      var rest := es[..|es| - 1];
      BidFoldTops(rest);
      assert forall x :: x in rest ==> x in es;
      assert forall i :: 0 <= i < |rest| ==> es[i] == rest[i];
    }
  }

  /** Whatever the order of iteration, the walk ends at the best bid. */
  lemma {:induction false} BidFoldBest(es: seq<Level>, m: Side)
    requires Walks(es, m)
    ensures IsBestBid(m, BidFold(es))
  {
    BidFoldTops(es);
    var b := BidFold(es);
    forall p | Live(m, p)
      ensures p <= b.0 || p <= 0
    {
      var i :| 0 <= i < |es| && es[i] == (p, m[p]);
    }
    assert b != (0, 0) ==> Live(m, b.0);
  }

  /** The best bid is what the view shows first exactly when that level is live and above price 0. */
  lemma {:induction false} BestBidOnTop(v: seq<Level>, m: Side, best: Level)
    requires IsView(v, m, true) && NoneEmpty(m) && IsBestBid(m, best) && v != []
    ensures best == v[0] <==> v[0].0 > 0 && v[0].1 > 0
  {
    if v[0].0 > 0 && v[0].1 > 0 {
      assert Live(m, v[0].0);
      forall p | Live(m, p)
        ensures p <= v[0].0
      {
        var i :| 0 <= i < |v| && v[i] == (p, m[p]);
        assert i == 0 || Ahead(v[0].0, v[i].0, true);
      }
    }
  }

  // --- Asks -----------------------------------------------------------------------------------------

  function AskFold(es: seq<Level>): Level
    decreases |es|
  {
    if es == [] then (0, 0)
    else
      var best, x := AskFold(es[..|es| - 1]), es[|es| - 1];
      if x.1 > 0 && (best.0 == 0 || x.0 < best.0) then x else best
  }

  /** The lowest live ask, or nothing. */
  ghost predicate IsBestAsk(m: Side, best: Level) {
    if exists p :: Live(m, p) then Live(m, best.0) && best.1 == m[best.0] && forall p :: Live(m, p) ==> best.0 <= p
    else best == (0, 0)
  }

  /** Price 0 is the lowest live ask, but not the only one: 0 also stands for "none found yet". */
  ghost predicate ZeroAsk(m: Side) {
    Live(m, 0) && (exists p :: Live(m, p) && p > 0) && forall p :: Live(m, p) ==> p >= 0
  }

  function Sign(price: int): int { if price < 0 then -1 else if price == 0 then 0 else 1 }

  /** The walk has met a live level of this sign. */
  ghost predicate Met(es: seq<Level>, sign: int) { exists i :: 0 <= i < |es| && es[i].1 > 0 && Sign(es[i].0) == sign }

  ghost predicate Lowest(es: seq<Level>, b: Level) { forall i :: 0 <= i < |es| && es[i].1 > 0 ==> b.0 <= es[i].0 }

  /** How far the walk over asks can be trusted. */
  ghost predicate AskWalked(es: seq<Level>, b: Level) {
    && (b == (0, 0) || (b in es && b.1 > 0))
    && (b == (0, 0) ==> forall sign :: !Met(es, sign))
    && (Met(es, -1) || !Met(es, 0) || !Met(es, 1) ==> Lowest(es, b))
  }

  lemma {:induction false} MetMore(es: seq<Level>, x: Level)
    ensures forall sign :: Met(es + [x], sign) <==> Met(es, sign) || (x.1 > 0 && Sign(x.0) == sign)
    ensures forall b :: Lowest(es + [x], b) <==> Lowest(es, b) && (x.1 > 0 ==> b.0 <= x.0)
  {
    var more := es + [x];
    assert more[|es|] == x && forall i :: 0 <= i < |es| ==> more[i] == es[i];
    forall b
      ensures Lowest(more, b) <==> Lowest(es, b) && (x.1 > 0 ==> b.0 <= x.0)
    {
      if Lowest(more, b) { assert forall i :: 0 <= i < |es| ==> es[i] == more[i]; }
    }
  }

  lemma {:induction false} LowestSign(es: seq<Level>, b: Level)
    requires b in es && b.1 > 0
    ensures Met(es, Sign(b.0)) && (Lowest(es, b) && Met(es, -1) ==> b.0 < 0)
  {
  }

  lemma {:induction false} LowestBelow(es: seq<Level>, x: Level)
    requires x.0 < 0 && !Met(es, -1)
    ensures Lowest(es, x)
  {
    forall i | 0 <= i < |es| && es[i].1 > 0
      ensures x.0 <= es[i].0
    {
      assert Sign(es[i].0) != -1;
    }
  }

  lemma {:induction false} AskWalkedStep(es: seq<Level>, x: Level, b: Level)
    requires AskWalked(es, b)
    ensures AskWalked(es + [x], if x.1 > 0 && (b.0 == 0 || x.0 < b.0) then x else b)
  {
    MetMore(es, x);
    if b != (0, 0) { LowestSign(es, b); }
    if x.0 < 0 && !Met(es, -1) { LowestBelow(es, x); }
    assert forall y :: y in es + [x] <==> y in es || y == x;
    if b == (0, 0) {
      forall i | 0 <= i < |es|
        ensures es[i].1 <= 0
      {
        assert !Met(es, Sign(es[i].0));
      }
    }
  }

  lemma {:induction false} AskFoldWalked(es: seq<Level>)
    ensures AskWalked(es, AskFold(es))
    decreases |es|
  {
    if es != [] {
      var rest, x := es[..|es| - 1], es[|es| - 1];
      AskFoldWalked(rest);
      assert es == rest + [x];
      AskWalkedStep(rest, x, AskFold(rest));
    }
  }

  /** Unless price 0 is the lowest of several live asks, the walk ends at the best ask whatever the
      order of iteration. */
  lemma {:induction false} AskFoldBest(es: seq<Level>, m: Side)
    requires Walks(es, m) && !ZeroAsk(m)
    ensures IsBestAsk(m, AskFold(es))
  {
    AskFoldWalked(es);
    var b := AskFold(es);
    forall p | Live(m, p)
      ensures Met(es, Sign(p)) && exists i :: 0 <= i < |es| && es[i] == (p, m[p]) && es[i].1 > 0
    {
      assert (p, m[p]) in es;
    }
    if b != (0, 0) {
      assert Live(m, b.0);
      SignsAgree(es, m);
      assert Lowest(es, b);
    }
  }

  lemma {:induction false} SignsAgree(es: seq<Level>, m: Side)
    requires Walks(es, m) && !ZeroAsk(m)
    ensures Met(es, -1) || !Met(es, 0) || !Met(es, 1)
  {
    if Met(es, 0) && Met(es, 1) {
      var i :| 0 <= i < |es| && es[i].1 > 0 && Sign(es[i].0) == 0;
      var j :| 0 <= j < |es| && es[j].1 > 0 && Sign(es[j].0) == 1;
      assert Live(m, 0) && Live(m, es[j].0) && es[j].0 > 0;
      var p :| Live(m, p) && p < 0;
      var k :| 0 <= k < |es| && es[k] == (p, m[p]);
    }
  }

  /** Some order in which a side can be walked. */
  lemma {:induction false} SomeWalk(m: Side) returns (es: seq<Level>)
    ensures Walks(es, m)
    decreases |m|
  {
    if p :| p in m {
      var rest := SomeWalk(m - {p});
      es := rest + [(p, m[p])];
      assert es[|rest|] == (p, m[p]);
      forall price | price in m
        ensures (price, m[price]) in es
      {
        if price != p { assert price in m - {p} && (price, m[price]) in rest; }
      }
    } else {
      es := [];
    }
  }

  lemma {:induction false} NonZero(es: seq<Level>)
    requires forall i :: 0 <= i < |es| && es[i].1 > 0 ==> es[i].0 > 0
    ensures AskFold(es) == (0, 0) || AskFold(es).0 > 0
  {
    AskFoldWalked(es);
  }

  /** A walk that meets price 0 first forgets it. */
  lemma {:induction false} ZeroFirst(q: int, es: seq<Level>)
    requires q > 0 && forall i :: 0 <= i < |es| && es[i].1 > 0 ==> es[i].0 > 0
    ensures if exists i :: 0 <= i < |es| && es[i].1 > 0 then AskFold([(0, q)] + es).0 > 0
        else AskFold([(0, q)] + es) == (0, q)
    decreases |es|
  {
    var all := [(0, q)] + es;
    if es == [] {
      assert all[..0] == [] && all[0] == (0, q);
    } else {
      var rest, x := es[..|es| - 1], es[|es| - 1];
      ZeroFirst(q, rest);
      assert all[..|all| - 1] == [(0, q)] + rest && all[|all| - 1] == x;
      assert forall i :: 0 <= i < |rest| ==> rest[i] == es[i];
      if x.1 <= 0 && exists i :: 0 <= i < |es| && es[i].1 > 0 {
        var i :| 0 <= i < |es| && es[i].1 > 0;
        assert rest[i].1 > 0;
      }
    }
  }

  /** A walk that meets price 0 last keeps it. */
  lemma {:induction false} ZeroLast(q: int, es: seq<Level>)
    requires q > 0 && forall i :: 0 <= i < |es| && es[i].1 > 0 ==> es[i].0 > 0
    ensures AskFold(es + [(0, q)]) == (0, q)
  {
    NonZero(es);
    assert (es + [(0, q)])[..|es|] == es;
  }

  /** In the one excluded case the answer depends on the order of iteration. */
  lemma {:induction false} AskOrderMatters(m: Side) returns (first: seq<Level>, second: seq<Level>)
    requires ZeroAsk(m)
    ensures Walks(first, m) && Walks(second, m) && AskFold(first).0 != AskFold(second).0
  {
    var rest := SomeWalk(m - {0});
    var q := m[0];
    first, second := [(0, q)] + rest, rest + [(0, q)];
    assert forall i :: 0 <= i < |rest| ==> Live(m, rest[i].0) || rest[i].1 <= 0;
    var p :| Live(m, p) && p > 0;
    assert p in m - {0} && (p, m[p]) in rest;
    var i :| 0 <= i < |rest| && rest[i] == (p, m[p]);
    ZeroFirst(q, rest);
    ZeroLast(q, rest);
    WalkWithZero(m, rest);
  }

  lemma {:induction false} WalkWithZero(m: Side, rest: seq<Level>)
    requires 0 in m && Walks(rest, m - {0})
    ensures Walks([(0, m[0])] + rest, m) && Walks(rest + [(0, m[0])], m)
  {
    forall price | price in m
      ensures (price, m[price]) in [(0, m[0])] + rest && (price, m[price]) in rest + [(0, m[0])]
    {
      if price != 0 { assert price in m - {0}; }
    }
  }
}
