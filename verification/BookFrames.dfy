/** Book frames: depth rows and ticker rows in one order of events, and after each event a picture of
    the book (src/Lab/src/BookFrameSampler.cpp). */
module BookFrames {
  import opened Records
  import opened BookLevels
  import opened BookBest
  import opened BookObject

  datatype Ticker = Ticker(tsNs: int, bidPrice: int, bidQty: int, askPrice: int, askQty: int)

  /** A line of the ticker file and what parsing it gives. */
  datatype Line = Blank | Parsed(status: Status, ticker: Ticker)

  datatype Kind = DepthKind | TickerKind
  datatype TimedEvent = TimedEvent(tsNs: int, index: nat, kind: Kind)

  datatype BookFrame = BookFrame(
    tsNs: int, bestBidPrice: int, bestBidQty: int, bestAskPrice: int, bestAskQty: int, ticker: Option<Ticker>,
    topBids: seq<Level>, topAsks: seq<Level>, totalBidLevels: nat, totalAskLevels: nat)

  // --- The order of events ----------------------------------------------------------------------------

  /** The comparison of the sort: by time, depth before ticker. */
  predicate Before(a: TimedEvent, b: TimedEvent) {
    a.tsNs < b.tsNs || (a.tsNs == b.tsNs && a.kind.DepthKind? && b.kind.TickerKind?)
  }

  /** The order it leaves: within one time and kind, by position in the input. */
  predicate Precedes(a: TimedEvent, b: TimedEvent) {
    Before(a, b) || (a.tsNs == b.tsNs && a.kind == b.kind && a.index < b.index)
  }

  ghost predicate Strict(es: seq<TimedEvent>) { forall i, j :: 0 <= i < j < |es| ==> Precedes(es[i], es[j]) }

  /** Events of one time and kind stand in the order of their positions. */
  ghost predicate Numbered(es: seq<TimedEvent>) {
    forall i, j :: 0 <= i < j < |es| && es[i].tsNs == es[j].tsNs && es[i].kind == es[j].kind ==>
        es[i].index < es[j].index
  }

  function StableInsert(s: seq<TimedEvent>, x: TimedEvent): seq<TimedEvent>
    decreases |s|
  {
    if s != [] && Before(x, s[|s| - 1]) then StableInsert(s[..|s| - 1], x) + [s[|s| - 1]] else s + [x]
  }

  function StableSort(es: seq<TimedEvent>): seq<TimedEvent>
    decreases |es|
  {
    if es == [] then [] else StableInsert(StableSort(es[..|es| - 1]), es[|es| - 1])
  }

  lemma {:induction false} StableInsertHas(s: seq<TimedEvent>, x: TimedEvent)
    ensures forall y :: y in StableInsert(s, x) <==> y == x || y in s
    ensures |StableInsert(s, x)| == |s| + 1
    decreases |s|
  {
    if s != [] && Before(x, s[|s| - 1]) {
      StableInsertHas(s[..|s| - 1], x);
      assert s == s[..|s| - 1] + [s[|s| - 1]];
    }
  }

  lemma {:induction false} StableInsertStrict(s: seq<TimedEvent>, x: TimedEvent)
    requires Strict(s)
    requires forall i :: 0 <= i < |s| && s[i].tsNs == x.tsNs && s[i].kind == x.kind ==> s[i].index < x.index
    ensures Strict(StableInsert(s, x))
    decreases |s|
  {
    if s != [] {
      var rest, last := s[..|s| - 1], s[|s| - 1];
      if Before(x, last) {
        StableInsertStrict(rest, x);
        StableInsertHas(rest, x);
        var front := StableInsert(rest, x);
        forall i | 0 <= i < |front|
          ensures Precedes(front[i], last)
        {
          assert front[i] in front;
          if front[i] != x {
            var k :| 0 <= k < |rest| && rest[k] == front[i];
            assert s[k] == front[i];
          }
        }
      } else {
        assert forall i :: 0 <= i < |rest| ==> Precedes(s[i], last);
        assert Precedes(last, x);
        assert forall i :: 0 <= i < |rest| ==> Precedes(s[i], x);
      }
    }
  }

  /** The sorted events are the events, strictly in order. */
  lemma {:induction false} StableSortStrict(es: seq<TimedEvent>)
    requires Numbered(es)
    ensures Strict(StableSort(es)) && |StableSort(es)| == |es|
    ensures forall y :: y in StableSort(es) <==> y in es
    decreases |es|
  {
    if es != [] {
      var rest, x := es[..|es| - 1], es[|es| - 1];
      StableSortStrict(rest);
      assert es == rest + [x];
      StableInsertHas(StableSort(rest), x);
      forall i | 0 <= i < |StableSort(rest)| && StableSort(rest)[i].tsNs == x.tsNs && StableSort(rest)[i].kind == x.kind
        ensures StableSort(rest)[i].index < x.index
      {
        assert StableSort(rest)[i] in rest;
        var k :| 0 <= k < |rest| && rest[k] == StableSort(rest)[i];
        assert es[k] == rest[k];
      }
      StableInsertStrict(StableSort(rest), x);
    }
  }

  function EventOf(depths: seq<DepthRow>, tickers: seq<Ticker>, n: nat): TimedEvent
    requires n < |depths| + |tickers|
  {
    if n < |depths| then TimedEvent(depths[n].tsNs, n, DepthKind)
    else TimedEvent(tickers[n - |depths|].tsNs, n - |depths|, TickerKind)
  }

  /** The events of the input: every depth row, then every ticker row. */
  ghost predicate Gathered(es: seq<TimedEvent>, depths: seq<DepthRow>, tickers: seq<Ticker>) {
    |es| == |depths| + |tickers| && forall n :: 0 <= n < |es| ==> es[n] == EventOf(depths, tickers, n)
  }

  /** All events, each once, strictly in order. */
  ghost predicate Arranged(es: seq<TimedEvent>, depths: seq<DepthRow>, tickers: seq<Ticker>) {
    && Strict(es) && |es| == |depths| + |tickers|
    && (forall p :: 0 <= p < |es| ==> KnownEvent(depths, tickers, es[p]))
    && forall n :: 0 <= n < |depths| ==> TimedEvent(depths[n].tsNs, n, DepthKind) in es
  }

  ghost predicate KnownEvent(depths: seq<DepthRow>, tickers: seq<Ticker>, e: TimedEvent) {
    match e.kind
    case DepthKind => e.index < |depths| && depths[e.index].tsNs == e.tsNs
    case TickerKind => e.index < |tickers| && tickers[e.index].tsNs == e.tsNs
  }

  lemma {:induction false} GatheredArranged(es: seq<TimedEvent>, depths: seq<DepthRow>, tickers: seq<Ticker>)
    requires Gathered(es, depths, tickers)
    ensures Arranged(StableSort(es), depths, tickers)
  {
    StableSortStrict(es);
    forall p | 0 <= p < |StableSort(es)|
      ensures KnownEvent(depths, tickers, StableSort(es)[p])
    {
      assert StableSort(es)[p] in es;
      var n :| 0 <= n < |es| && es[n] == StableSort(es)[p];
    }
    forall n | 0 <= n < |depths|
      ensures TimedEvent(depths[n].tsNs, n, DepthKind) in StableSort(es)
    {
      assert es[n] == EventOf(depths, tickers, n) && es[n] in es;
    }
  }

  // --- The rows behind an event -----------------------------------------------------------------------

  /** The depth rows among these events, in their order. */
  function Depths(es: seq<TimedEvent>): seq<nat>
    decreases |es|
  {
    if es == [] then []
    else Depths(es[..|es| - 1]) + (if es[|es| - 1].kind.DepthKind? then [es[|es| - 1].index] else [])
  }

  lemma {:induction false} DepthsAt(es: seq<TimedEvent>, a: nat) returns (q: nat)
    requires a < |Depths(es)|
    ensures q < |es| && es[q].kind.DepthKind? && es[q].index == Depths(es)[a] && |Depths(es[..q])| == a
    decreases |es|
  {
    var n := |es| - 1;
    if a < |Depths(es[..n])| {
      q := DepthsAt(es[..n], a);
      assert es[..n][..q] == es[..q];
    } else {
      q := n;
    }
  }

  lemma {:induction false} DepthsGrow(es: seq<TimedEvent>, q: nat, r: nat)
    requires q <= |es| && r <= |es|
    ensures q <= r ==> |Depths(es[..q])| <= |Depths(es[..r])|
    decreases r
  {
    if q < r {
      assert es[..r][..r - 1] == es[..r - 1];
      DepthsGrow(es, q, r - 1);
    }
  }

  lemma {:induction false} SamePlace(es: seq<TimedEvent>, q: nat, r: nat)
    requires Strict(es) && q < |es| && r < |es| && es[q] == es[r]
    ensures q == r
  {
  }

  lemma {:induction false} DepthsHas(es: seq<TimedEvent>, q: nat)
    requires q < |es| && es[q].kind.DepthKind?
    ensures es[q].index in Depths(es)
    decreases |es|
  {
    var n := |es| - 1;
    if q < n { DepthsHas(es[..n], q); }
  }

  predicate Earlier(depths: seq<DepthRow>, i: nat, k: nat)
    requires i < |depths| && k < |depths|
  {
    depths[i].tsNs < depths[k].tsNs || (depths[i].tsNs == depths[k].tsNs && i < k)
  }

  /** Depth row i is ordered at or before event e. */
  predicate Behind(depths: seq<DepthRow>, i: nat, e: TimedEvent)
    requires i < |depths|
  {
    !Precedes(e, TimedEvent(depths[i].tsNs, i, DepthKind))
  }

  /** The rows applied by event p: exactly those at or before it, in order. */
  ghost predicate RowsBehind(order: seq<nat>, depths: seq<DepthRow>, e: TimedEvent) {
    && (forall a :: 0 <= a < |order| ==> order[a] < |depths|)
    && (forall a, b :: 0 <= a < b < |order| ==> Earlier(depths, order[a], order[b]))
    && forall i :: 0 <= i < |depths| ==> (i in order <==> Behind(depths, i, e))
  }

  lemma {:induction false} DepthsInOrder(
      es: seq<TimedEvent>, depths: seq<DepthRow>, tickers: seq<Ticker>, p: nat, a: nat, b: nat)
    requires Arranged(es, depths, tickers) && p < |es| && a < b < |Depths(es[..p + 1])|
    ensures Depths(es[..p + 1])[a] < |depths| && Depths(es[..p + 1])[b] < |depths|
    ensures Earlier(depths, Depths(es[..p + 1])[a], Depths(es[..p + 1])[b])
  {
    var some := es[..p + 1];
    var q := DepthsAt(some, a);
    var r := DepthsAt(some, b);
    DepthsGrow(some, r, q);
    assert q < r && some[q] == es[q] && some[r] == es[r];
    assert KnownEvent(depths, tickers, es[q]) && KnownEvent(depths, tickers, es[r]) && Precedes(es[q], es[r]);
  }

  lemma {:induction false} DepthsBehind(
      es: seq<TimedEvent>, depths: seq<DepthRow>, tickers: seq<Ticker>, p: nat, i: nat)
    requires Arranged(es, depths, tickers) && p < |es| && i < |depths|
    ensures i in Depths(es[..p + 1]) <==> Behind(depths, i, es[p])
  {
    var some := es[..p + 1];
    var d := TimedEvent(depths[i].tsNs, i, DepthKind);
    var q :| 0 <= q < |es| && es[q] == d;
    assert q < p ==> Precedes(es[q], es[p]);
    assert p < q ==> Precedes(es[p], es[q]);
    if i in Depths(some) {
      var a :| 0 <= a < |Depths(some)| && Depths(some)[a] == i;
      var r := DepthsAt(some, a);
      assert some[r] == es[r] && KnownEvent(depths, tickers, es[r]);
      SamePlace(es, q, r);
    }
    if q <= p {
      assert some[q] == d;
      DepthsHas(some, q);
    }
  }

  lemma {:induction false} DepthsAreBehind(es: seq<TimedEvent>, depths: seq<DepthRow>, tickers: seq<Ticker>, p: nat)
    requires Arranged(es, depths, tickers) && p < |es|
    ensures RowsBehind(Depths(es[..p + 1]), depths, es[p])
  {
    var order := Depths(es[..p + 1]);
    forall a | 0 <= a < |order|
      ensures order[a] < |depths|
    {
      var q := DepthsAt(es[..p + 1], a);
      assert KnownEvent(depths, tickers, es[q]);
    }
    forall a, b | 0 <= a < b < |order|
      ensures Earlier(depths, order[a], order[b])
    {
      DepthsInOrder(es, depths, tickers, p, a, b);
    }
    forall i | 0 <= i < |depths|
      ensures i in order <==> Behind(depths, i, es[p])
    {
      DepthsBehind(es, depths, tickers, p, i);
    }
  }

  // --- The book behind an event -------------------------------------------------------------------------

  /** Level j of depth row i, at or before event e, is about this price on this side. */
  ghost predicate WrittenBy(depths: seq<DepthRow>, e: TimedEvent, i: int, j: int, bid: bool, price: int) {
    0 <= i < |depths| && Behind(depths, i, e) && Mentions(depths[i].levels, j, bid, price)
  }

  /** It is the last one: by the time of its row, then the row's position, then the level's. */
  ghost predicate FinalBy(depths: seq<DepthRow>, e: TimedEvent, i: int, j: int, bid: bool, price: int) {
    && WrittenBy(depths, e, i, j, bid, price)
    && forall k, n {:trigger WrittenBy(depths, e, k, n, bid, price)} ::
         WrittenBy(depths, e, k, n, bid, price) ==> Earlier(depths, k, i) || (k == i && n <= j)
  }

  /** A price of the book behind event e: the quantity written last, if that is not 0. */
  ghost predicate PriceShown(m: Side, depths: seq<DepthRow>, e: TimedEvent, bid: bool, price: int) {
    if exists i, j :: WrittenBy(depths, e, i, j, bid, price) then
      exists i, j :: FinalBy(depths, e, i, j, bid, price) && Quantity(m, price) == depths[i].levels[j].qty
    else price !in m
  }

  /** One side of the book behind event e. */
  ghost predicate BookBehind(m: Side, depths: seq<DepthRow>, e: TimedEvent, bid: bool) {
    NoneEmpty(m) && forall price {:trigger price in m} :: PriceShown(m, depths, e, bid, price)
  }

  function Rows(depths: seq<DepthRow>, order: seq<nat>): (rows: seq<DepthRow>)
    requires forall a :: 0 <= a < |order| ==> order[a] < |depths|
    ensures |rows| == |order| && forall a :: 0 <= a < |order| ==> rows[a] == depths[order[a]]
  {
    seq(|order|, a requires 0 <= a < |order| => depths[order[a]])
  }

  lemma {:induction false} FinalRow(
      depths: seq<DepthRow>, order: seq<nat>, e: TimedEvent, a: nat, j: nat, bid: bool, price: int)
    requires RowsBehind(order, depths, e) && LastWrite(Rows(depths, order), a, j, bid, price)
    ensures a < |order| && FinalBy(depths, e, order[a], j, bid, price)
  {
    var i := order[a];
    assert i in order;
    forall k, n | WrittenBy(depths, e, k, n, bid, price)
      ensures Earlier(depths, k, i) || (k == i && n <= j)
    {
      assert k in order;
      var b :| 0 <= b < |order| && order[b] == k;
      assert Written(Rows(depths, order), b, n, bid, price);
    }
  }

  lemma {:induction false} PriceIsShown(depths: seq<DepthRow>, order: seq<nat>, e: TimedEvent, bid: bool, price: int)
    requires RowsBehind(order, depths, e)
    ensures PriceShown(FoldRows(Rows(depths, order), bid), depths, e, bid, price)
  {
    var rows := Rows(depths, order);
    RowsKeep(rows, bid);
    RowsQuantity(rows, bid, price);
    if i, j :| WrittenBy(depths, e, i, j, bid, price) {
      assert i in order;
      var b :| 0 <= b < |order| && order[b] == i;
      assert Written(rows, b, j, bid, price);
      var a, n := LastWriteExists(rows, b, j, bid, price);
      FinalRow(depths, order, e, a, n, bid, price);
    } else {
      forall b, k
        ensures !Written(rows, b, k, bid, price)
      {
        if 0 <= b < |order| {
          assert order[b] in order;
          assert !WrittenBy(depths, e, order[b], k, bid, price);
        }
      }
    }
  }

  /** The book a sampler holds after event p is the last-write-wins book of the depth rows at or
      before it. */
  lemma {:induction false} SampledBook(
      es: seq<TimedEvent>, depths: seq<DepthRow>, tickers: seq<Ticker>, p: nat, bid: bool)
    requires Arranged(es, depths, tickers) && p < |es|
    ensures RowsBehind(Depths(es[..p + 1]), depths, es[p])
    ensures BookBehind(FoldRows(Rows(depths, Depths(es[..p + 1])), bid), depths, es[p], bid)
  {
    DepthsAreBehind(es, depths, tickers, p);
    var order := Depths(es[..p + 1]);
    RowsKeep(Rows(depths, order), bid);
    forall price
      ensures PriceShown(FoldRows(Rows(depths, order), bid), depths, es[p], bid, price)
    {
      PriceIsShown(depths, order, es[p], bid, price);
    }
  }

  // --- Frames -----------------------------------------------------------------------------------------

  function Top(v: seq<Level>, n: nat): seq<Level> { if n < |v| then v[..n] else v }

  /** What a frame shows of one side. */
  ghost predicate SideShown(m: Side, descending: bool, n: nat, top: seq<Level>, total: nat) {
    exists v :: IsView(v, m, descending) && top == Top(v, n) && total == |v|
  }

  ghost predicate BestShown(bids: Side, asks: Side, f: BookFrame) {
    && (exists qty :: IsBestBid(bids, (f.bestBidPrice, qty)))
    && (exists price :: IsBestBid(bids, (price, f.bestBidQty)))
    && (!ZeroAsk(asks) ==> (exists qty :: IsBestAsk(asks, (f.bestAskPrice, qty))) && exists price ::
         IsBestAsk(asks, (price, f.bestAskQty)))
  }

  /** The frame of a book. */
  ghost predicate Pictures(f: BookFrame, bids: Side, asks: Side, tsNs: int, ticker: Option<Ticker>, n: nat) {
    && f.tsNs == tsNs && f.ticker == ticker && BestShown(bids, asks, f)
    && SideShown(bids, true, n, f.topBids, f.totalBidLevels) && SideShown(asks, false, n, f.topAsks, f.totalAskLevels)
  }

  method CopyTopLevels(v: seq<Level>, n: nat) returns (out: seq<Level>)
    ensures out == Top(v, n)
  {
    out := [];
    var i := 0;
    while i < |v| && |out| < n
      invariant 0 <= i <= |v| && i <= n && out == v[..i]
    {
      out := out + [v[i]];
      i := i + 1;
    }
  }

  method MakeFrame(book: BookState, ticker: Option<Ticker>, tsNs: int, n: nat) returns (f: BookFrame)
    requires book.Valid()
    modifies book`bidView, book`askView, book`bidsDirty, book`asksDirty
    ensures book.Valid() && Pictures(f, book.bids, book.asks, tsNs, ticker, n)
  {
    var bidPrice := book.BestBidPrice();
    var bidQty := book.BestBidQty();
    var askPrice := book.BestAskPrice();
    var askQty := book.BestAskQty();
    var bids := book.Bids();
    var asks := book.Asks();
    var topBids := CopyTopLevels(bids, n);
    var topAsks := CopyTopLevels(asks, n);
    f := BookFrame(tsNs, bidPrice, bidQty, askPrice, askQty, ticker, topBids, topAsks, |bids|, |asks|);
  }

  predicate Malformed(line: Line) { line.Parsed? && line.status != Ok }

  /** The ticker rows of the lines that are not blank. */
  function Tickers(lines: seq<Line>): seq<Ticker>
    decreases |lines|
  {
    if lines == [] then []
    else Tickers(lines[..|lines| - 1]) + (if lines[|lines| - 1].Parsed? then [lines[|lines| - 1].ticker] else [])
  }

  /** Line i is the first malformed one. */
  ghost predicate FirstMalformed(lines: seq<Line>, i: int) {
    0 <= i < |lines| && Malformed(lines[i]) && forall k :: 0 <= k < i ==> !Malformed(lines[k])
  }

  method ParseTickers(lines: seq<Line>) returns (status: Status, tickers: seq<Ticker>)
    ensures status == Ok <==> forall i :: 0 <= i < |lines| ==> !Malformed(lines[i])
    ensures status == Ok ==> tickers == Tickers(lines)
    ensures status != Ok ==> exists i :: FirstMalformed(lines, i) && lines[i].status == status
  {
    tickers := [];
    for n := 0 to |lines|
      invariant tickers == Tickers(lines[..n]) && forall k :: 0 <= k < n ==> !Malformed(lines[k])
    {
      assert lines[..n + 1][..n] == lines[..n];
      if lines[n].Parsed? {
        if lines[n].status != Ok {
          assert FirstMalformed(lines, n);
          return lines[n].status, [];
        }
        tickers := tickers + [lines[n].ticker];
      }
    }
    assert lines[..|lines|] == lines;
    status := Ok;
  }

  method Gather(depths: seq<DepthRow>, tickers: seq<Ticker>) returns (es: seq<TimedEvent>)
    ensures Gathered(es, depths, tickers)
  {
    es := [];
    for i := 0 to |depths|
      invariant |es| == i && forall n :: 0 <= n < |es| ==> es[n] == EventOf(depths, tickers, n)
    {
      es := es + [TimedEvent(depths[i].tsNs, i, DepthKind)];
    }
    for i := 0 to |tickers|
      invariant |es| == |depths| + i && forall n :: 0 <= n < |es| ==> es[n] == EventOf(depths, tickers, n)
    {
      es := es + [TimedEvent(tickers[i].tsNs, i, TickerKind)];
    }
  }

  /** The frame of an event pictures the book behind it, and the ticker row the event is. */
  ghost predicate FrameOf(f: BookFrame, depths: seq<DepthRow>, tickers: seq<Ticker>, e: TimedEvent, n: nat) {
    && KnownEvent(depths, tickers, e)
    && exists bids, asks ::
         && BookBehind(bids, depths, e, true) && BookBehind(asks, depths, e, false)
         && Pictures(f, bids, asks, e.tsNs, if e.kind.TickerKind? then Some(tickers[e.index]) else None, n)
  }

  /** The book holds the rows of these events. */
  ghost predicate Holds(bids: Side, asks: Side, depths: seq<DepthRow>, es: seq<TimedEvent>) {
    && (forall a :: 0 <= a < |Depths(es)| ==> Depths(es)[a] < |depths|)
    && bids == FoldRows(Rows(depths, Depths(es)), true) && asks == FoldRows(Rows(depths, Depths(es)), false)
  }

  lemma {:induction false} HoldsMore(bids: Side, asks: Side, depths: seq<DepthRow>, es: seq<TimedEvent>, e: TimedEvent)
    requires Holds(bids, asks, depths, es) && (e.kind.DepthKind? ==> e.index < |depths|)
    ensures e.kind.TickerKind? ==> Holds(bids, asks, depths, es + [e])
    ensures e.kind.DepthKind? ==>
              Holds(Fold(bids, depths[e.index].levels, true), Fold(asks, depths[e.index].levels, false), depths,
                  es + [e])
  {
    assert (es + [e])[..|es|] == es;
    var order := Depths(es);
    if e.kind.TickerKind? {
      assert Depths(es + [e]) == order;
    } else {
      assert Depths(es + [e]) == order + [e.index];
      assert Rows(depths, order + [e.index])[..|order|] == Rows(depths, order);
    }
  }

  lemma {:induction false} FrameHolds(
      f: BookFrame, bids: Side, asks: Side, depths: seq<DepthRow>, tickers: seq<Ticker>, es: seq<TimedEvent>, p: nat,
      n: nat)
    requires Arranged(es, depths, tickers) && p < |es| && Holds(bids, asks, depths, es[..p + 1])
    requires Pictures(f, bids, asks, es[p].tsNs, if es[p].kind.TickerKind? && es[p].index < |tickers| then
              Some(tickers[es[p].index]) else None, n)
    ensures FrameOf(f, depths, tickers, es[p], n)
  {
    SampledBook(es, depths, tickers, p, true);
    SampledBook(es, depths, tickers, p, false);
  }

  /** One event: a depth row goes into the book, then the book is pictured. */
  method SampleEvent(
      book: BookState, depths: seq<DepthRow>, tickers: seq<Ticker>, ghost es: seq<TimedEvent>, ghost p: nat,
      e: TimedEvent, n: nat) returns (f: BookFrame)
    requires Arranged(es, depths, tickers) && p < |es| && e == es[p]
    requires book.Valid() && Holds(book.bids, book.asks, depths, es[..p])
    modifies book
    ensures book.Valid() && Holds(book.bids, book.asks, depths, es[..p + 1])
    ensures FrameOf(f, depths, tickers, e, n)
  {
    assert KnownEvent(depths, tickers, e);
    HoldsMore(book.bids, book.asks, depths, es[..p], e);
    assert es[..p + 1] == es[..p] + [e];
    var ticker := None;
    if e.kind.DepthKind? { book.ApplyDelta(depths[e.index]); } else { ticker := Some(tickers[e.index]); }
    f := MakeFrame(book, ticker, e.tsNs, n);
    FrameHolds(f, book.bids, book.asks, depths, tickers, es, p, n);
  }

  /** One frame for every event, in order. */
  method SampleFrames(depths: seq<DepthRow>, lines: seq<Line>, n: nat)
    returns (status: Status, out: seq<BookFrame>, ghost events: seq<TimedEvent>)
    ensures status == Ok <==> forall i :: 0 <= i < |lines| ==> !Malformed(lines[i])
    ensures status == Ok ==> Arranged(events, depths, Tickers(lines)) && |out| == |events|
    ensures status == Ok ==> forall p :: 0 <= p < |out| ==> FrameOf(out[p], depths, Tickers(lines), events[p], n)
    ensures status != Ok ==> out == []
  {
    out := [];
    events := [];
    var tickers;
    status, tickers := ParseTickers(lines);
    if status != Ok { return; }
    var gathered := Gather(depths, tickers);
    GatheredArranged(gathered, depths, tickers);
    var es := StableSort(gathered);
    events := es;
    var book := new BookState();
    var p := 0;
    while p < |es|
      invariant 0 <= p <= |es| && |out| == p && book.Valid() && fresh(book)
      invariant Holds(book.bids, book.asks, depths, es[..p])
      invariant forall q :: 0 <= q < p ==> FrameOf(out[q], depths, tickers, es[q], n)
    {
      var f := SampleEvent(book, depths, tickers, es, p, es[p], n);
      out := out + [f];
      p := p + 1;
    }
  }
}
