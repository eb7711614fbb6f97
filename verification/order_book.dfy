/** One CLOB order book kept incrementally, and its 20-level view (market_data/state.py:48-64, 321-372, 434-464). */
module OrderBook {
  import opened Wrappers
  import opened Models

  type Side = map<real, real>

  datatype Book = Book(
    assetId: string, marketId: string, conditionId: string, timeframe: Timeframe, outcome: Outcome,
    session: Option<string>, bids: Side, asks: Side, lastTrade: Option<real>, tickSize: Option<real>,
    initialized: bool, coherent: bool, resolved: bool, divergence: nat, lastEventNs: Option<int>)

  // Best prices and sorted prices.

  ghost function Pick<T>(s: set<T>): (x: T)
    requires s != {}
    ensures x in s
  {
    var x :| x in s;
    x
  }

  lemma {:induction false} HasMax(prices: set<real>)
    requires prices != {}
    ensures exists m :: m in prices && forall p :: p in prices ==> p <= m
  {
    var x := Pick(prices);
    var rest := prices - {x};
    if rest == {} {
      assert prices == {x};
    } else {
      HasMax(rest);
      var m :| m in rest && forall p :: p in rest ==> p <= m;
      var best := if x <= m then m else x;
      assert forall p :: p in prices ==> p == x || p in rest;
      assert best in prices && forall p :: p in prices ==> p <= best;
    }
  }

  lemma {:induction false} HasMin(prices: set<real>)
    requires prices != {}
    ensures exists m :: m in prices && forall p :: p in prices ==> m <= p
  {
    var x := Pick(prices);
    var rest := prices - {x};
    if rest == {} {
      assert prices == {x};
    } else {
      HasMin(rest);
      var m :| m in rest && forall p :: p in rest ==> m <= p;
      var best := if m <= x then m else x;
      assert forall p :: p in prices ==> p == x || p in rest;
      assert best in prices && forall p :: p in prices ==> best <= p;
    }
  }

  function MaxOf(prices: set<real>): (m: real)
    requires prices != {}
    ensures m in prices && forall p :: p in prices ==> p <= m
  {
    HasMax(prices);
    var m :| m in prices && forall p :: p in prices ==> p <= m;
    m
  }

  function MinOf(prices: set<real>): (m: real)
    requires prices != {}
    ensures m in prices && forall p :: p in prices ==> m <= p
  {
    HasMin(prices);
    var m :| m in prices && forall p :: p in prices ==> m <= p;
    m
  }

  function BestBid(bids: Side): Option<real> {
    if bids.Keys == {} then None else Some(MaxOf(bids.Keys))
  }

  function BestAsk(asks: Side): Option<real> {
    if asks.Keys == {} then None else Some(MinOf(asks.Keys))
  }

  function Descending(prices: set<real>): (r: seq<real>)
    decreases |prices|
  {
    if prices == {} then [] else var m := MaxOf(prices); [m] + Descending(prices - {m})
  }

  function Ascending(prices: set<real>): (r: seq<real>)
    decreases |prices|
  {
    if prices == {} then [] else var m := MinOf(prices); [m] + Ascending(prices - {m})
  }

  // Steps of a book.

  /** The dictionary built from a list of levels: a repeated price keeps its last quantity. */
  function LevelMap(levels: seq<PriceLevel>): Side {
    if levels == [] then map[]
    else
      var last := levels[|levels| - 1];
      LevelMap(levels[..|levels| - 1])[last.price := last.quantity]
  }

  function SetLevel(side: Side, price: real, quantity: real): Side {
    if quantity == 0.0 then side - {price} else side[price := quantity]
  }

  predicate Uncrossed(bids: Side, asks: Side) {
    bids.Keys == {} || asks.Keys == {} || MaxOf(bids.Keys) < MinOf(asks.Keys)
  }

  function FullBook(book: Book, bids: seq<PriceLevel>, asks: seq<PriceLevel>, session: Option<string>): Book {
    var b, a := LevelMap(bids), LevelMap(asks);
    book.(bids := b, asks := a, initialized := true, coherent := Uncrossed(b, a), divergence := 0, session := session)
  }

  function PriceChange(book: Book, side: string, price: real, quantity: real): Book {
    if !book.initialized then book
    else
      var bids := if side == "BUY" then SetLevel(book.bids, price, quantity) else book.bids;
      var asks := if side == "BUY" then book.asks else SetLevel(book.asks, price, quantity);
      book.(bids := bids, asks := asks, coherent := Uncrossed(bids, asks))
  }

  predicate Matches(book: Book, bestBid: Option<real>, bestAsk: Option<real>) {
    BestBid(book.bids) == bestBid && BestAsk(book.asks) == bestAsk
  }

  function CompareBest(book: Book, bestBid: Option<real>, bestAsk: Option<real>): Book {
    if !book.initialized then book
    else if !Matches(book, bestBid, bestAsk) then
      book.(divergence := book.divergence + 1, coherent := book.coherent && book.divergence + 1 < 3)
    else if book.coherent then book.(divergence := 0)
    else book
  }

  /** What an event accepted for a book does to it. */
  function BookStep(book: Book, e: Event): Book {
    var stamped, p := book.(lastEventNs := e.sourceNs), e.payload;
    if p.PolymarketBook? then FullBook(stamped, p.bids, p.asks, e.sessionId)
    else if p.PolymarketPriceChange? then PriceChange(stamped, p.side, p.price, p.quantity)
    else if p.PolymarketBestBidAsk? then CompareBest(stamped, p.bestBid, p.bestAsk)
    else if p.PolymarketLastTrade? then stamped.(lastTrade := Some(p.price))
    else if p.PolymarketTickSize? then stamped.(tickSize := Some(p.newTickSize))
    else if p.PolymarketResolved? && (p.affectedAssetIds == [] || book.assetId in p.affectedAssetIds) then
      stamped.(resolved := true)
    else stamped
  }

  /** `_invalidate_clob_books` for one book. */
  function Invalidated(book: Book): Book {
    book.(bids := map[], asks := map[], initialized := false, coherent := false, divergence := 0, session := None)
  }

  // What every reachable book satisfies.

  /** Coherent books are uncrossed; an uninitialised one has no levels and no divergence count. */
  predicate Sound(book: Book) {
    && (book.coherent ==> Uncrossed(book.bids, book.asks))
    && (!book.initialized ==> book.bids == map[] && book.asks == map[] && book.divergence == 0)
  }

  /** Every stored price and quantity is positive. */
  predicate Positive(book: Book) {
    PositiveSide(book.bids) && PositiveSide(book.asks)
  }

  predicate PositiveSide(side: Side) {
    forall p :: p in side ==> p > 0.0 && side[p] > 0.0
  }

  /** What the parser guarantees of the levels an event carries. */
  predicate PositiveLevels(e: Event) {
    match e.payload
    case PolymarketBook(bids, asks, _) =>
      && (forall i :: 0 <= i < |bids| ==> bids[i].quantity > 0.0)
      && (forall i :: 0 <= i < |asks| ==> asks[i].quantity > 0.0)
    case PolymarketPriceChange(_, price, quantity, _, _, _) => price > 0.0 && quantity >= 0.0
    case _ => true
  }

  lemma StepKeepsSound(book: Book, e: Event)
    requires Sound(book)
    ensures Sound(BookStep(book, e)) && Sound(Invalidated(book))
  {
  }

  lemma {:induction false} LevelMapPositive(levels: seq<PriceLevel>)
    requires forall i :: 0 <= i < |levels| ==> levels[i].quantity > 0.0
    ensures PositiveSide(LevelMap(levels))
  {
    if levels != [] {
      LevelMapPositive(levels[..|levels| - 1]);
    }
  }

  lemma SetLevelPositive(side: Side, price: real, quantity: real)
    requires PositiveSide(side) && price > 0.0 && quantity >= 0.0
    ensures PositiveSide(SetLevel(side, price, quantity))
  {
  }

  lemma StepKeepsPositive(book: Book, e: Event)
    requires Positive(book) && PositiveLevels(e)
    ensures Positive(BookStep(book, e)) && Positive(Invalidated(book))
  {
    match e.payload {
      case PolymarketBook(bids, asks, _) =>
        LevelMapPositive(bids);
        LevelMapPositive(asks);
      case PolymarketPriceChange(_, price, quantity, _, _, _) =>
        SetLevelPositive(book.bids, price, quantity);
        SetLevelPositive(book.asks, price, quantity);
      case _ =>
    }
  }

  // The view of a book.

  datatype BookSnapshot = BookSnapshot(
    assetId: string, marketId: string, conditionId: string, outcome: Outcome, session: Option<string>,
    bids: seq<Level>, asks: seq<Level>, bestBid: Option<real>, bestAsk: Option<real>,
    lastTrade: Option<real>, tickSize: Option<real>, initialized: bool, coherent: bool, resolved: bool,
    lastEventNs: Option<int>)

  function First20(prices: seq<real>): seq<real> {
    if |prices| <= 20 then prices else prices[..20]
  }

  function LevelsAt(side: Side, prices: seq<real>): (levels: seq<Level>)
    requires forall i :: 0 <= i < |prices| ==> prices[i] in side
    ensures |levels| == |prices|
    ensures forall i :: 0 <= i < |prices| ==> levels[i] == Level(prices[i], side[prices[i]])
  {
    if prices == [] then [] else [Level(prices[0], side[prices[0]])] + LevelsAt(side, prices[1..])
  }

  /** The list holds as many prices as the set, all from it, and every price of the set. */
  ghost predicate Enumerates(r: seq<real>, prices: set<real>) {
    && |r| == |prices|
    && (forall i :: 0 <= i < |r| ==> r[i] in prices)
    && (forall p :: p in prices ==> exists i :: 0 <= i < |r| && r[i] == p)
  }

  lemma ConsEnumerates(m: real, rest: seq<real>, prices: set<real>)
    requires m in prices && Enumerates(rest, prices - {m})
    ensures Enumerates([m] + rest, prices)
  {
    var r := [m] + rest;
    forall i | 0 <= i < |r| ensures r[i] in prices {
      assert i > 0 ==> r[i] == rest[i - 1] && rest[i - 1] in prices - {m};
    }
    forall p | p in prices ensures exists i :: 0 <= i < |r| && r[i] == p {
      if p == m {
        assert r[0] == p;
      } else {
        assert p in prices - {m};
        var i :| 0 <= i < |rest| && rest[i] == p;
        assert r[i + 1] == p;
      }
    }
  }

  ghost predicate Falling(r: seq<real>) {
    forall i, j :: 0 <= i < j < |r| ==> r[i] > r[j]
  }

  ghost predicate Rising(r: seq<real>) {
    forall i, j :: 0 <= i < j < |r| ==> r[i] < r[j]
  }

  lemma ConsFalls(m: real, rest: seq<real>, prices: set<real>)
    requires Enumerates(rest, prices - {m}) && Falling(rest) && forall p :: p in prices ==> p <= m
    ensures Falling([m] + rest)
  {
    forall i | 0 <= i < |rest| ensures rest[i] < m {
      assert rest[i] in prices - {m};
    }
  }

  lemma ConsRises(m: real, rest: seq<real>, prices: set<real>)
    requires Enumerates(rest, prices - {m}) && Rising(rest) && forall p :: p in prices ==> m <= p
    ensures Rising([m] + rest)
  {
    forall i | 0 <= i < |rest| ensures rest[i] > m {
      assert rest[i] in prices - {m};
    }
  }

  lemma {:induction false} DescendingSorts(prices: set<real>)
    ensures Enumerates(Descending(prices), prices) && Falling(Descending(prices))
    decreases |prices|
  {
    if prices == {} {
    } else {
      var m := MaxOf(prices);
      DescendingSorts(prices - {m});
      ConsEnumerates(m, Descending(prices - {m}), prices);
      ConsFalls(m, Descending(prices - {m}), prices);
    }
  }

  lemma {:induction false} AscendingSorts(prices: set<real>)
    ensures Enumerates(Ascending(prices), prices) && Rising(Ascending(prices))
    decreases |prices|
  {
    if prices == {} {
    } else {
      var m := MinOf(prices);
      AscendingSorts(prices - {m});
      ConsEnumerates(m, Ascending(prices - {m}), prices);
      ConsRises(m, Ascending(prices - {m}), prices);
    }
  }

  function BidLevels(bids: Side): seq<Level> {
    DescendingSorts(bids.Keys);
    LevelsAt(bids, First20(Descending(bids.Keys)))
  }

  function AskLevels(asks: Side): seq<Level> {
    AscendingSorts(asks.Keys);
    LevelsAt(asks, First20(Ascending(asks.Keys)))
  }

  function ViewOf(book: Book): BookSnapshot {
    var bids, asks := BidLevels(book.bids), AskLevels(book.asks);
    BookSnapshot(book.assetId, book.marketId, book.conditionId, book.outcome, book.session, bids, asks,
                 if bids != [] then Some(bids[0].price) else None,
                 if asks != [] then Some(asks[0].price) else None,
                 book.lastTrade, book.tickSize, book.initialized, book.coherent, book.resolved, book.lastEventNs)
  }

  function Min(a: nat, b: nat): nat { if a < b then a else b }

  /** `levels` are the best at most 20 levels of `side` in strict order, `better` first. */
  ghost predicate BestLevels(side: Side, levels: seq<Level>, better: (real, real) -> bool) {
    && |levels| == Min(20, |side.Keys|)
    && (forall i :: 0 <= i < |levels| ==> levels[i].price in side && levels[i].quantity == side[levels[i].price])
    && (forall i, j :: 0 <= i < j < |levels| ==> better(levels[i].price, levels[j].price))
    && (forall i, p :: 0 <= i < |levels| && p in side && (forall j :: 0 <= j < |levels| ==> levels[j].price != p) ==>
          better(levels[i].price, p))
  }

  lemma {:induction false} SortedPrefixIsBest(side: Side, sorted: seq<real>, better: (real, real) -> bool)
    requires Enumerates(sorted, side.Keys)
    requires forall i, j :: 0 <= i < j < |sorted| ==> better(sorted[i], sorted[j])
    ensures BestLevels(side, LevelsAt(side, First20(sorted)), better)
  {
    var levels := LevelsAt(side, First20(sorted));
    assert forall i :: 0 <= i < |levels| ==> levels[i].price == sorted[i];
    forall i, p | 0 <= i < |levels| && p in side && (forall j :: 0 <= j < |levels| ==> levels[j].price != p)
      ensures better(levels[i].price, p)
    {
      assert p in side.Keys;
      var k :| 0 <= k < |sorted| && sorted[k] == p;
      assert k >= |levels|;
    }
  }

  /**
   The published view of a book is its 20 best levels a side in strict order, and its best bid and
   ask are the highest bid and the lowest ask of the whole book.
   */
  lemma ViewIsBest(book: Book)
    ensures BestLevels(book.bids, ViewOf(book).bids, (a, b) => a > b)
    ensures BestLevels(book.asks, ViewOf(book).asks, (a, b) => a < b)
    ensures ViewOf(book).bestBid == BestBid(book.bids) && ViewOf(book).bestAsk == BestAsk(book.asks)
  {
    DescendingSorts(book.bids.Keys);
    AscendingSorts(book.asks.Keys);
    SortedPrefixIsBest(book.bids, Descending(book.bids.Keys), (a, b) => a > b);
    SortedPrefixIsBest(book.asks, Ascending(book.asks.Keys), (a, b) => a < b);
  }

  // What the steps mean, price by price.

  /** The last level at a price gives its quantity. */
  predicate LastLevelAt(levels: seq<PriceLevel>, i: nat, p: real) {
    i < |levels| && levels[i].price == p && forall j :: i < j < |levels| ==> levels[j].price != p
  }

  /** The dictionary of a list of levels holds exactly the listed prices. */
  lemma {:induction false} LevelMapPrices(levels: seq<PriceLevel>, p: real)
    ensures p in LevelMap(levels) <==> exists i :: 0 <= i < |levels| && levels[i].price == p
  {
    if levels != [] {
      var front := levels[..|levels| - 1];
      LevelMapPrices(front, p);
      if i :| 0 <= i < |levels| && levels[i].price == p {
        assert i < |front| ==> front[i] == levels[i];
      }
      if i :| 0 <= i < |front| && front[i].price == p {
        assert levels[i].price == p;
      }
    }
  }

  /** Each price has the quantity listed for it last. */
  lemma {:induction false} LevelMapMeans(levels: seq<PriceLevel>, i: nat, p: real)
    requires LastLevelAt(levels, i, p)
    ensures p in LevelMap(levels) && LevelMap(levels)[p] == levels[i].quantity
  {
    var front, last := levels[..|levels| - 1], levels[|levels| - 1];
    if i < |front| {
      assert last.price != p;
      LevelMapMeans(front, i, p);
    }
  }

  /** A level is set: the price holds the quantity, or is gone when that is zero; every other price is as it was. */
  ghost predicate LevelSet(before: Side, after: Side, price: real, quantity: real) {
    && (price in after <==> quantity != 0.0) && (price in after ==> after[price] == quantity)
    && (forall p :: p != price ==> (p in after <==> p in before) && (p in before ==> after[p] == before[p]))
  }

  /** An accepted price change sets its level on the side it names, and touches nothing else. */
  lemma ChangeMeans(book: Book, e: Event)
    requires book.initialized && e.payload.PolymarketPriceChange?
    ensures var t, p := BookStep(book, e), e.payload;
            && (if p.side == "BUY" then LevelSet(book.bids, t.bids, p.price, p.quantity) && t.asks == book.asks
                else LevelSet(book.asks, t.asks, p.price, p.quantity) && t.bids == book.bids)
            && t == book.(bids := t.bids, asks := t.asks, coherent := t.coherent, lastEventNs := e.sourceNs)
  {
  }

  /** Before its first full book a price change only marks the time. */
  lemma EarlyChangeIgnored(book: Book, e: Event)
    requires !book.initialized && e.payload.PolymarketPriceChange?
    ensures BookStep(book, e) == book.(lastEventNs := e.sourceNs)
  {
  }

  /** The sides are uncrossed exactly when every bid is below every ask. */
  lemma UncrossedMeans(bids: Side, asks: Side)
    ensures Uncrossed(bids, asks) <==> forall p, q :: p in bids && q in asks ==> p < q
  {
    if bids.Keys != {} && asks.Keys != {} {
      assert MaxOf(bids.Keys) in bids && MinOf(asks.Keys) in asks;
    }
  }
}
