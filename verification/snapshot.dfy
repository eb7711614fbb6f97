/** The snapshot taken of the live state and its readiness verdict (market_data/state.py:374-563). */
module Snapshots {
  import opened Wrappers
  import opened Models
  import opened Rolling
  import opened OrderBook
  import opened LiveState
  import opened StateInvariants

  datatype Config = Config(chainlinkMs: int, depthMs: int, tradeMs: int)

  datatype Reason =
    | ChainlinkDisconnected | ChainlinkStale | BinanceDisconnected | DepthStale | TradeStale
    | TickerMissing | ClobDisconnected | NoActiveMarket
    | MarketNotActive(timeframe: Timeframe) | MarketResolved(timeframe: Timeframe)
    | BookUninitialized(timeframe: Timeframe, outcome: Outcome)
    | BookIncoherent(timeframe: Timeframe, outcome: Outcome)

  datatype ChainlinkSnapshot = ChainlinkSnapshot(
    price: Option<real>, sourceNs: Option<int>, receivedNs: Option<int>, ageMs: Option<int>)

  datatype BinanceSnapshot = BinanceSnapshot(
    lastPrice: Option<real>, takerSide: Option<TakerSide>, ticker: Option<TickerSnapshot>,
    depth: Option<DepthSnapshot>, windows: seq<WindowSnapshot>)

  datatype TickerSnapshot = TickerSnapshot(
    bid: real, ask: real, bidQuantity: real, askQuantity: real, mid: real, spread: real,
    spreadBps: Option<real>, microprice: Option<real>, imbalance: Option<real>)

  datatype DepthSnapshot = DepthSnapshot(
    bids: seq<PriceLevel>, asks: seq<PriceLevel>, bidNotional: real, askNotional: real, imbalance: Option<real>)

  datatype TimeframeSnapshot = TimeframeSnapshot(
    timeframe: Timeframe, marketId: string, conditionId: string, startNs: int, endNs: int, remainingMs: int,
    up: Option<BookSnapshot>, down: Option<BookSnapshot>, resolved: bool, ready: bool, reasons: seq<Reason>)

  datatype Snapshot = Snapshot(
    snapshotSequence: int, atNs: int, market5m: Option<TimeframeSnapshot>, market15m: Option<TimeframeSnapshot>,
    chainlink: ChainlinkSnapshot, binance: BinanceSnapshot, health: seq<(EventSource, SourceHealth)>,
    ready: bool, reasons: seq<Reason>)

  type Ticker = p: Payload | p.BinanceBookTicker? witness BinanceBookTicker("", 0, 0.0, 0.0, 0.0, 0.0)
  type Depth = p: Payload | p.BinanceDepth20? witness BinanceDepth20("", 0, [], [])

  function AtLeastZero(x: int): int { if x < 0 then 0 else x }

  function AgeMs(e: Event, nowNs: int): int {
    AtLeastZero((nowNs - e.wallNs) / 1_000_000)
  }

  function AgeOf(e: Option<Event>, nowNs: int): Option<int> {
    if e.Some? then Some(AgeMs(e.value, nowNs)) else None
  }

  function ChainlinkOf(e: Option<Event>, nowNs: int): ChainlinkSnapshot {
    if e.None? then ChainlinkSnapshot(None, None, None, None)
    else
      ChainlinkSnapshot(if e.value.payload.ChainlinkPrice? then Some(e.value.payload.price) else None,
                        e.value.sourceNs, Some(e.value.wallNs), AgeOf(e, nowNs))
  }

  /** `a / b`, or none where the divisor is zero. */
  function Ratio(a: real, b: real): Option<real> {
    if b != 0.0 then Some(a / b) else None
  }

  function TickerOf(t: Ticker): TickerSnapshot {
    var bid, ask, bidQuantity, askQuantity := t.bestBidPrice, t.bestAskPrice, t.bestBidQuantity, t.bestAskQuantity;
    var spread, mid, total := ask - bid, (ask + bid) / 2.0, bidQuantity + askQuantity;
    TickerSnapshot(bid, ask, bidQuantity, askQuantity, mid, spread,
                   if mid != 0.0 then Some(spread / mid * 10_000.0) else None,
                   Ratio(ask * bidQuantity + bid * askQuantity, total),
                   Ratio(bidQuantity - askQuantity, total))
  }

  function Notional(levels: seq<PriceLevel>): real {
    if levels == [] then 0.0
    else Notional(levels[..|levels| - 1]) + levels[|levels| - 1].price * levels[|levels| - 1].quantity
  }

  function DepthOf(d: Depth): DepthSnapshot {
    var bid, ask := Notional(d.bids), Notional(d.asks);
    DepthSnapshot(d.bids, d.asks, bid, ask, Ratio(bid - ask, bid + ask))
  }

  function ReadAll(windows: seq<Window>): (r: seq<WindowSnapshot>)
    ensures |r| == |windows|
    ensures forall i :: 0 <= i < |r| ==> r[i] == Read(windows[i])
  {
    if windows == [] then [] else [Read(windows[0])] + ReadAll(windows[1..])
  }

  function BinanceOf(trade: Option<Event>, ticker: Option<Event>, depth: Option<Event>, windows: seq<WindowSnapshot>):
    BinanceSnapshot
  {
    var traded := trade.Some? && trade.value.payload.BinanceAggTrade?;
    BinanceSnapshot(
      if traded then Some(trade.value.payload.price) else None,
      if traded then Some(trade.value.payload.takerSide) else None,
      if ticker.Some? && ticker.value.payload.BinanceBookTicker? then Some(TickerOf(ticker.value.payload)) else None,
      if depth.Some? && depth.value.payload.BinanceDepth20? then Some(DepthOf(depth.value.payload)) else None,
      windows)
  }

  // Markets.

  function BookAt(books: map<string, Book>, id: string): Option<Book> {
    if id in books then Some(books[id]) else None
  }

  function BookView(book: Option<Book>): Option<BookSnapshot> {
    if book.Some? then Some(ViewOf(book.value)) else None
  }

  function BookReasons(tf: Timeframe, outcome: Outcome, book: Option<Book>): seq<Reason> {
    if book.None? || !book.value.initialized then [BookUninitialized(tf, outcome)]
    else if !book.value.coherent then [BookIncoherent(tf, outcome)]
    else []
  }

  predicate Resolved(book: Option<Book>) {
    book.Some? && book.value.resolved
  }

  /** The timeframe has a current market. */
  predicate HasMarket(contexts: map<Timeframe, Context>, tf: Timeframe) {
    tf in contexts && contexts[tf].current.Some?
  }

  function MarketReasons(tf: Timeframe, context: Context, up: Option<Book>, down: Option<Book>): seq<Reason> {
    (if context.state == ACTIVE then [] else [MarketNotActive(tf)])
    + BookReasons(tf, UP, up) + BookReasons(tf, DOWN, down)
    + (if Resolved(up) || Resolved(down) then [MarketResolved(tf)] else [])
  }

  function TimeframeOf(contexts: map<Timeframe, Context>, books: map<string, Book>, tf: Timeframe, nowNs: int):
    Option<TimeframeSnapshot>
  {
    if !HasMarket(contexts, tf) then None
    else
      var market := contexts[tf].current.value;
      var up, down := BookAt(books, market.upTokenId), BookAt(books, market.downTokenId);
      var reasons := MarketReasons(tf, contexts[tf], up, down);
      Some(TimeframeSnapshot(tf, market.marketId, market.conditionId, market.startNs, market.endNs,
                             AtLeastZero((market.endNs - nowNs) / 1_000_000), BookView(up), BookView(down),
                             Resolved(up) || Resolved(down), reasons == [], reasons))
  }

  // Readiness.

  function ReasonIf(holds: bool, reason: Reason): seq<Reason> {
    if holds then [reason] else []
  }

  function SourceReasons(cfg: Config, connected: set<EventSource>, chainlink: Option<Event>, depth: Option<Event>,
                         trade: Option<Event>, ticker: Option<Event>, nowNs: int): seq<Reason> {
    ReasonIf(CHAINLINK_RTDS !in connected, ChainlinkDisconnected)
    + ReasonIf(Stale(chainlink, nowNs, cfg.chainlinkMs), ChainlinkStale)
    + ReasonIf(BINANCE_SPOT !in connected, BinanceDisconnected)
    + ReasonIf(Stale(depth, nowNs, cfg.depthMs), DepthStale)
    + ReasonIf(Stale(trade, nowNs, cfg.tradeMs), TradeStale)
    + ReasonIf(ticker.None?, TickerMissing)
    + ReasonIf(POLYMARKET_CLOB !in connected, ClobDisconnected)
  }

  predicate Stale(e: Option<Event>, nowNs: int, limitMs: int) {
    e.None? || AgeMs(e.value, nowNs) > limitMs
  }

  function ReasonsOf(market: Option<TimeframeSnapshot>): seq<Reason> {
    if market.Some? then market.value.reasons else []
  }

  function MarketsReasons(market5m: Option<TimeframeSnapshot>, market15m: Option<TimeframeSnapshot>): seq<Reason> {
    ReasonIf(market5m.None? && market15m.None?, NoActiveMarket) + ReasonsOf(market5m) + ReasonsOf(market15m)
  }

  /** Every reason once, in the order of first appearance. */
  function EachOnce(reasons: seq<Reason>): (r: seq<Reason>)
    ensures r == [] <==> reasons == []
  {
    if reasons == [] then []
    else
      var front, last := EachOnce(reasons[..|reasons| - 1]), reasons[|reasons| - 1];
      if last in front then front else front + [last]
  }

  /** What `snapshot` shows of a state whose windows have already forgotten what is too old at `nowNs`. */
  function SnapshotOf(cfg: Config, s: State, nowNs: int, number: int, health: seq<(EventSource, SourceHealth)>):
    Snapshot
  {
    var market5m := TimeframeOf(s.contexts, s.books, FIVE_MINUTES, nowNs);
    var market15m := TimeframeOf(s.contexts, s.books, FIFTEEN_MINUTES, nowNs);
    var reasons := SourceReasons(cfg, s.connected, s.chainlink, s.depth, s.aggTrade, s.bookTicker, nowNs)
                   + MarketsReasons(market5m, market15m);
    Snapshot(number, nowNs, market5m, market15m, ChainlinkOf(s.chainlink, nowNs),
             BinanceOf(s.aggTrade, s.bookTicker, s.depth, ReadAll(s.windows)), health,
             reasons == [], EachOnce(reasons))
  }

  function ExpireAll(windows: seq<Window>, nowNs: int): (r: seq<Window>)
    ensures |r| == |windows|
    ensures forall i :: 0 <= i < |r| ==> r[i] == Expire(windows[i], nowNs)
  {
    if windows == [] then [] else [Expire(windows[0], nowNs)] + ExpireAll(windows[1..], nowNs)
  }

  /** `snapshot` is not read-only: every window forgets what is too old. */
  function Expired(s: State, nowNs: int): State {
    s.(windows := ExpireAll(s.windows, nowNs))
  }

  // What readiness means.

  /** Received less than `limitMs` and one milliseconds ago, or not in the past. */
  predicate Fresh(e: Option<Event>, nowNs: int, limitMs: int) {
    e.Some? && limitMs >= 0 && nowNs - e.value.wallNs < (limitMs + 1) * 1_000_000
  }

  predicate Usable(book: Option<Book>) {
    book.Some? && book.value.initialized && book.value.coherent && !book.value.resolved
  }

  /** The current market is active and strategy may use both of its books. */
  predicate MarketUsable(s: State, tf: Timeframe)
    requires HasMarket(s.contexts, tf)
  {
    var market := s.contexts[tf].current.value;
    && s.contexts[tf].state == ACTIVE
    && Usable(BookAt(s.books, market.upTokenId)) && Usable(BookAt(s.books, market.downTokenId))
  }

  predicate SourcesReady(cfg: Config, s: State, nowNs: int) {
    && {CHAINLINK_RTDS, BINANCE_SPOT, POLYMARKET_CLOB} <= s.connected
    && Fresh(s.chainlink, nowNs, cfg.chainlinkMs) && Fresh(s.depth, nowNs, cfg.depthMs)
    && Fresh(s.aggTrade, nowNs, cfg.tradeMs) && s.bookTicker.Some?
  }

  ghost predicate Ready(cfg: Config, s: State, nowNs: int) {
    && SourcesReady(cfg, s, nowNs)
    && (exists tf :: HasMarket(s.contexts, tf))
    && (forall tf :: HasMarket(s.contexts, tf) ==> MarketUsable(s, tf))
  }

  lemma StaleIsNotFresh(e: Option<Event>, nowNs: int, limitMs: int)
    ensures Stale(e, nowNs, limitMs) <==> !Fresh(e, nowNs, limitMs)
  {
    if e.Some? {
      var d := nowNs - e.value.wallNs;
      assert d == d / 1_000_000 * 1_000_000 + d % 1_000_000;
    }
  }

  lemma SourceReasonsEmpty(cfg: Config, s: State, nowNs: int)
    ensures SourceReasons(cfg, s.connected, s.chainlink, s.depth, s.aggTrade, s.bookTicker, nowNs) == [] <==>
            SourcesReady(cfg, s, nowNs)
  {
    StaleIsNotFresh(s.chainlink, nowNs, cfg.chainlinkMs);
    StaleIsNotFresh(s.depth, nowNs, cfg.depthMs);
    StaleIsNotFresh(s.aggTrade, nowNs, cfg.tradeMs);
  }

  lemma MarketReasonsEmpty(s: State, tf: Timeframe, nowNs: int)
    requires HasMarket(s.contexts, tf)
    ensures ReasonsOf(TimeframeOf(s.contexts, s.books, tf, nowNs)) == [] <==> MarketUsable(s, tf)
  {
  }

  /**
   The verdict is "ready", and no reason is listed, exactly when all sources are connected and fresh,
   a ticker was seen, at least one market exists, and every market that exists is active with two
   initialised, coherent, unresolved books.
   */
  lemma ReadyIff(cfg: Config, s: State, nowNs: int, number: int, health: seq<(EventSource, SourceHealth)>)
    ensures var shown := SnapshotOf(cfg, Expired(s, nowNs), nowNs, number, health);
            && (shown.ready <==> Ready(cfg, s, nowNs))
            && (shown.reasons == [] <==> shown.ready)
  {
    var t := Expired(s, nowNs);
    SourceReasonsEmpty(cfg, t, nowNs);
    forall tf | HasMarket(t.contexts, tf)
      ensures ReasonsOf(TimeframeOf(t.contexts, t.books, tf, nowNs)) == [] <==> MarketUsable(t, tf)
    {
      MarketReasonsEmpty(t, tf, nowNs);
    }
    EitherTimeframe(s, t);
  }

  lemma EitherTimeframe(s: State, t: State)
    requires s.contexts == t.contexts && s.books == t.books
    ensures (exists tf :: HasMarket(s.contexts, tf)) <==>
            (HasMarket(t.contexts, FIVE_MINUTES) || HasMarket(t.contexts, FIFTEEN_MINUTES))
    ensures (forall tf :: HasMarket(s.contexts, tf) ==> MarketUsable(s, tf)) <==>
            ((HasMarket(t.contexts, FIVE_MINUTES) ==> MarketUsable(t, FIVE_MINUTES)) &&
             (HasMarket(t.contexts, FIFTEEN_MINUTES) ==> MarketUsable(t, FIFTEEN_MINUTES)))
  {
    forall tf ensures HasMarket(s.contexts, tf) ==> tf in {FIVE_MINUTES, FIFTEEN_MINUTES} {
      match tf {
        case FIVE_MINUTES =>
        case FIFTEEN_MINUTES =>
      }
    }
  }

  /** Readiness does not need both markets: a ready state stays ready when one of its two disappears. */
  lemma OneMarketSuffices(cfg: Config, s: State, nowNs: int, gone: Timeframe, kept: Timeframe)
    requires Ready(cfg, s, nowNs) && gone != kept && HasMarket(s.contexts, kept)
    ensures var t := s.(contexts := s.contexts - {gone});
            Ready(cfg, t, nowNs) && !HasMarket(t.contexts, gone)
  {
    var t := s.(contexts := s.contexts - {gone});
    assert HasMarket(t.contexts, kept);
    forall tf | HasMarket(t.contexts, tf) ensures MarketUsable(t, tf) {
      assert HasMarket(s.contexts, tf);
    }
  }

  // What the market and price fields mean.

  /** A book as shown: its own fields, its best prices, and its 20 best levels a side in strict order. */
  ghost predicate ShowsAs(shown: BookSnapshot, book: Book) {
    && shown.assetId == book.assetId && shown.marketId == book.marketId && shown.conditionId == book.conditionId
    && shown.outcome == book.outcome && shown.session == book.session
    && shown.lastTrade == book.lastTrade && shown.tickSize == book.tickSize && shown.lastEventNs == book.lastEventNs
    && shown.initialized == book.initialized && shown.coherent == book.coherent && shown.resolved == book.resolved
    && shown.bestBid == BestBid(book.bids) && shown.bestAsk == BestAsk(book.asks)
    && BestLevels(book.bids, shown.bids, (a, b) => a > b) && BestLevels(book.asks, shown.asks, (a, b) => a < b)
  }

  /** The book shown on a side is the one kept for that side's token, or none is kept. */
  ghost predicate ShowsBook(s: State, shown: Option<BookSnapshot>, token: string) {
    && (shown.Some? <==> token in s.books)
    && (shown.Some? ==> shown.value.assetId == token && ShowsAs(shown.value, s.books[token]))
  }

  /**
   In every state that keeps the invariant, a timeframe is shown exactly when it has a current market, with
   that market's own books, best prices and time left in whole milliseconds; it is ready exactly when the
   market is usable.
   */
  lemma ShownMarket(s: State, tf: Timeframe, nowNs: int)
    requires Inv(s)
    ensures TimeframeOf(s.contexts, s.books, tf, nowNs).Some? <==> HasMarket(s.contexts, tf)
    ensures HasMarket(s.contexts, tf) ==>
              var shown, market := TimeframeOf(s.contexts, s.books, tf, nowNs).value, s.contexts[tf].current.value;
              && shown.timeframe == tf && shown.marketId == market.marketId && shown.conditionId == market.conditionId
              && shown.startNs == market.startNs && shown.endNs == market.endNs
              && ShowsBook(s, shown.up, market.upTokenId) && ShowsBook(s, shown.down, market.downTokenId)
              && (if market.endNs <= nowNs then shown.remainingMs == 0
                  else 0 <= market.endNs - nowNs - shown.remainingMs * 1_000_000 < 1_000_000)
              && (shown.resolved <==>
                    (shown.up.Some? && shown.up.value.resolved) || (shown.down.Some? && shown.down.value.resolved))
              && (shown.ready <==> MarketUsable(s, tf))
  {
    if HasMarket(s.contexts, tf) {
      var market := s.contexts[tf].current.value;
      BookShown(s, market.upTokenId);
      BookShown(s, market.downTokenId);
      MarketReasonsEmpty(s, tf, nowNs);
    }
  }

  lemma ViewShows(book: Book)
    ensures ShowsAs(ViewOf(book), book)
  {
    ViewIsBest(book);
  }

  lemma BookShown(s: State, token: string)
    requires Inv(s)
    ensures ShowsBook(s, BookView(BookAt(s.books, token)), token)
  {
    if token in s.books {
      ViewShows(s.books[token]);
      assert BookFits(s, token);
    }
  }

  lemma WeightedBetween(bid: real, ask: real, p: real, q: real)
    requires bid <= ask && p >= 0.0 && q >= 0.0 && p + q > 0.0
    ensures bid <= (ask * p + bid * q) / (p + q) <= ask
  {
    var total := p + q;
    assert ask * p + bid * q - bid * total == (ask - bid) * p;
    assert ask * total - (ask * p + bid * q) == (ask - bid) * q;
    DivideBounds(bid, ask * p + bid * q, ask, total);
  }

  lemma ShareBetween(p: real, q: real)
    requires p >= 0.0 && q >= 0.0 && p + q > 0.0
    ensures -1.0 <= (p - q) / (p + q) <= 1.0
    ensures (p - q) / (p + q) > 0.0 <==> p > q
  {
    DivideBounds(-1.0, p - q, 1.0, p + q);
    if p > q {
      DivideBounds(0.0, p - q, 1.0, p + q);
    } else {
      DivideBounds(-1.0, p - q, 0.0, p + q);
    }
    var share := (p - q) / (p + q);
    assert share * (p + q) == p - q;
  }

  /** The microprice leans to the ask exactly when more is bid than asked. */
  lemma MicroLeans(bid: real, ask: real, p: real, q: real)
    requires bid < ask && p > 0.0 && q > 0.0
    ensures (ask * p + bid * q) / (p + q) > (ask + bid) / 2.0 <==> p > q
  {
    var total, mid := p + q, (ask + bid) / 2.0;
    var micro := (ask * p + bid * q) / total;
    assert micro * total == ask * p + bid * q;
    assert micro * total - mid * total == (ask - bid) / 2.0 * (p - q) by {
      assert mid * total == (ask * p + ask * q + bid * p + bid * q) / 2.0;
    }
    Leans(micro, mid, total, ask - bid, p - q);
  }

  lemma Leans(micro: real, mid: real, total: real, gap: real, more: real)
    requires total > 0.0 && gap > 0.0 && micro * total - mid * total == gap / 2.0 * more
    ensures micro > mid <==> more > 0.0
  {
    assert (micro - mid) * total == gap / 2.0 * more;
    SignOfProduct(micro - mid, total);
    SignOfProduct(more, gap / 2.0);
  }

  lemma SignOfProduct(x: real, y: real)
    requires y > 0.0
    ensures x * y > 0.0 <==> x > 0.0
  {
    if x > 0.0 {
      ScaleStrict(0.0, x, y);
    } else if x < 0.0 {
      ScaleStrict(x, 0.0, y);
    }
  }

  /**
   The ticker shown is the ticker's own prices and quantities. With uncrossed prices and positive quantities the
   mid price lies half way between bid and ask and the microprice between them, nearer the ask exactly when more is
   bid than asked; the spread in basis points is that of the mid; and the imbalance lies between -1 and 1 and is
   positive exactly when more is bid than asked.
   */
  lemma TickerMeans(t: Ticker)
    requires 0.0 < t.bestBidPrice <= t.bestAskPrice && t.bestBidQuantity > 0.0 && t.bestAskQuantity > 0.0
    ensures var shown := TickerOf(t);
            && shown.bid == t.bestBidPrice && shown.ask == t.bestAskPrice
            && shown.bidQuantity == t.bestBidQuantity && shown.askQuantity == t.bestAskQuantity
            && shown.spread == shown.ask - shown.bid && shown.mid - shown.bid == shown.ask - shown.mid
            && shown.spreadBps.Some? && shown.spreadBps.value * shown.mid == shown.spread * 10_000.0
            && shown.microprice.Some? && shown.bid <= shown.microprice.value <= shown.ask
            && (shown.bid < shown.ask ==>
                  (shown.microprice.value > shown.mid <==> shown.bidQuantity > shown.askQuantity))
            && shown.imbalance.Some? && -1.0 <= shown.imbalance.value <= 1.0
            && (shown.imbalance.value > 0.0 <==> shown.bidQuantity > shown.askQuantity)
  {
    ShownBps(t);
    ShownMicro(t);
    ShownImbalance(t);
  }

  lemma ShownBps(t: Ticker)
    requires 0.0 < t.bestBidPrice <= t.bestAskPrice
    ensures var shown := TickerOf(t);
            shown.spreadBps.Some? && shown.spreadBps.value * shown.mid == shown.spread * 10_000.0
  {
    Bps(TickerOf(t).spread, TickerOf(t).mid);
  }

  lemma ShownMicro(t: Ticker)
    requires t.bestBidPrice <= t.bestAskPrice && t.bestBidQuantity > 0.0 && t.bestAskQuantity > 0.0
    ensures var shown := TickerOf(t);
            && shown.microprice.Some? && shown.bid <= shown.microprice.value <= shown.ask
            && (shown.bid < shown.ask ==>
                  (shown.microprice.value > shown.mid <==> shown.bidQuantity > shown.askQuantity))
  {
    var bid, ask, p, q := t.bestBidPrice, t.bestAskPrice, t.bestBidQuantity, t.bestAskQuantity;
    WeightedBetween(bid, ask, p, q);
    if bid < ask {
      MicroLeans(bid, ask, p, q);
    }
  }

  lemma ShownImbalance(t: Ticker)
    requires t.bestBidQuantity > 0.0 && t.bestAskQuantity > 0.0
    ensures var shown := TickerOf(t);
            && shown.imbalance.Some? && -1.0 <= shown.imbalance.value <= 1.0
            && (shown.imbalance.value > 0.0 <==> shown.bidQuantity > shown.askQuantity)
  {
    ShareBetween(t.bestBidQuantity, t.bestAskQuantity);
  }

  lemma Bps(spread: real, mid: real)
    requires mid != 0.0
    ensures spread / mid * 10_000.0 * mid == spread * 10_000.0
  {
    assert spread / mid * mid == spread;
  }

  // Depth, Chainlink and the last trade.

  lemma {:induction false} NotionalSnoc(levels: seq<PriceLevel>, level: PriceLevel)
    ensures Notional(levels + [level]) == Notional(levels) + level.price * level.quantity
  {
    assert (levels + [level])[..|levels|] == levels;
  }

  lemma {:induction false} NotionalSign(levels: seq<PriceLevel>)
    requires forall i :: 0 <= i < |levels| ==> levels[i].quantity > 0.0
    ensures Notional(levels) >= 0.0 && (levels != [] ==> Notional(levels) > 0.0)
  {
    if levels != [] {
      var last := levels[|levels| - 1];
      NotionalSign(levels[..|levels| - 1]);
      SignOfProduct(last.price, last.quantity);
    }
  }

  /** The depth with one more bid, or one more ask, at the end of its list. */
  function WithBid(d: Depth, level: PriceLevel): Depth {
    BinanceDepth20(d.symbol, d.lastUpdateId, d.bids + [level], d.asks)
  }

  function WithAsk(d: Depth, level: PriceLevel): Depth {
    BinanceDepth20(d.symbol, d.lastUpdateId, d.bids, d.asks + [level])
  }

  /**
   Each side's notional is what its own levels add up to: nothing without levels, and one more level adds its price
   times its quantity to its own side and nothing to the other. With positive quantities the imbalance is there as
   soon as there is a level, lies between -1 and 1, and is positive exactly when the bids are worth more.
   */
  lemma DepthMeans(d: Depth, level: PriceLevel)
    ensures var shown := DepthOf(d);
            && shown.bids == d.bids && shown.asks == d.asks
            && (d.bids == [] ==> shown.bidNotional == 0.0) && (d.asks == [] ==> shown.askNotional == 0.0)
    ensures var more := DepthOf(WithBid(d, level));
            && more.bidNotional == DepthOf(d).bidNotional + level.price * level.quantity
            && more.askNotional == DepthOf(d).askNotional
    ensures var more := DepthOf(WithAsk(d, level));
            && more.askNotional == DepthOf(d).askNotional + level.price * level.quantity
            && more.bidNotional == DepthOf(d).bidNotional
  {
    NotionalSnoc(d.bids, level);
    NotionalSnoc(d.asks, level);
  }

  lemma ImbalanceMeans(d: Depth)
    requires forall i :: 0 <= i < |d.bids| ==> d.bids[i].quantity > 0.0
    requires forall i :: 0 <= i < |d.asks| ==> d.asks[i].quantity > 0.0
    ensures var shown := DepthOf(d);
            && (shown.imbalance.Some? <==> d.bids != [] || d.asks != [])
            && (shown.imbalance.Some? ==>
                  && -1.0 <= shown.imbalance.value <= 1.0
                  && (shown.imbalance.value > 0.0 <==> shown.bidNotional > shown.askNotional))
  {
    NotionalSign(d.bids);
    NotionalSign(d.asks);
    if d.bids != [] || d.asks != [] {
      ShareBetween(Notional(d.bids), Notional(d.asks));
    }
  }

  /** What is shown of Chainlink: the held event's own price and times, and its age in whole milliseconds. */
  lemma ChainlinkMeans(e: Event, nowNs: int)
    requires e.payload.ChainlinkPrice?
    ensures ChainlinkOf(None, nowNs) == ChainlinkSnapshot(None, None, None, None)
    ensures var shown := ChainlinkOf(Some(e), nowNs);
            && shown.price == Some(e.payload.price) && shown.sourceNs == e.sourceNs
            && shown.receivedNs == Some(e.wallNs)
            && shown.ageMs.Some? && shown.ageMs.value >= 0
            && (nowNs >= e.wallNs ==> 0 <= nowNs - e.wallNs - shown.ageMs.value * 1_000_000 < 1_000_000)
            && (nowNs < e.wallNs ==> shown.ageMs.value == 0)
  {
  }

  /** What is shown of Binance: the price and side of the held trade, and the held ticker, depth and windows. */
  lemma BinanceMeans(trade: Option<Event>, ticker: Option<Event>, depth: Option<Event>, windows: seq<WindowSnapshot>)
    requires trade.Some? ==> trade.value.payload.BinanceAggTrade?
    requires ticker.Some? ==> ticker.value.payload.BinanceBookTicker?
    requires depth.Some? ==> depth.value.payload.BinanceDepth20?
    ensures var shown := BinanceOf(trade, ticker, depth, windows);
            && (trade.Some? ==> shown.lastPrice == Some(trade.value.payload.price))
            && (trade.Some? ==> shown.takerSide == Some(trade.value.payload.takerSide))
            && (trade.None? ==> shown.lastPrice.None? && shown.takerSide.None?)
            && (shown.ticker.Some? <==> ticker.Some?) && (shown.depth.Some? <==> depth.Some?)
            && (ticker.Some? ==> shown.ticker.value.bid == ticker.value.payload.bestBidPrice
                                 && shown.ticker.value.ask == ticker.value.payload.bestAskPrice)
            && (depth.Some? ==> shown.depth.value.bids == depth.value.payload.bids
                                && shown.depth.value.asks == depth.value.payload.asks)
            && shown.windows == windows
  {
  }

  // The reasons listed.

  /** What each reason says, of the sources, of the markets together and of each market by itself. */
  predicate Applies(cfg: Config, s: State, nowNs: int, r: Reason) {
    match r
    case ChainlinkDisconnected => CHAINLINK_RTDS !in s.connected
    case BinanceDisconnected => BINANCE_SPOT !in s.connected
    case ClobDisconnected => POLYMARKET_CLOB !in s.connected
    case ChainlinkStale => !Fresh(s.chainlink, nowNs, cfg.chainlinkMs)
    case DepthStale => !Fresh(s.depth, nowNs, cfg.depthMs)
    case TradeStale => !Fresh(s.aggTrade, nowNs, cfg.tradeMs)
    case TickerMissing => s.bookTicker.None?
    case NoActiveMarket => !HasMarket(s.contexts, FIVE_MINUTES) && !HasMarket(s.contexts, FIFTEEN_MINUTES)
    case MarketNotActive(tf) => HasMarket(s.contexts, tf) && s.contexts[tf].state != ACTIVE
    case MarketResolved(tf) =>
      HasMarket(s.contexts, tf) && (Resolved(SideBook(s, tf, UP)) || Resolved(SideBook(s, tf, DOWN)))
    case BookUninitialized(tf, side) =>
      HasMarket(s.contexts, tf) && (SideBook(s, tf, side).None? || !SideBook(s, tf, side).value.initialized)
    case BookIncoherent(tf, side) =>
      HasMarket(s.contexts, tf) && SideBook(s, tf, side).Some?
      && SideBook(s, tf, side).value.initialized && !SideBook(s, tf, side).value.coherent
  }

  function SideBook(s: State, tf: Timeframe, side: Outcome): Option<Book>
    requires HasMarket(s.contexts, tf)
  {
    var market := s.contexts[tf].current.value;
    BookAt(s.books, if side == UP then market.upTokenId else market.downTokenId)
  }

  lemma {:induction false} EachOnceKeeps(reasons: seq<Reason>)
    ensures forall r :: r in EachOnce(reasons) <==> r in reasons
    ensures forall i, j :: 0 <= i < j < |EachOnce(reasons)| ==> EachOnce(reasons)[i] != EachOnce(reasons)[j]
  {
    if reasons != [] {
      EachOnceKeeps(reasons[..|reasons| - 1]);
      assert forall r :: r in reasons <==> r in reasons[..|reasons| - 1] || r == reasons[|reasons| - 1];
    }
  }

  predicate OfSources(r: Reason) {
    r.ChainlinkDisconnected? || r.ChainlinkStale? || r.BinanceDisconnected? || r.DepthStale? || r.TradeStale?
    || r.TickerMissing? || r.ClobDisconnected?
  }

  lemma SourceReasonsMean(cfg: Config, s: State, nowNs: int, r: Reason)
    ensures r in SourceReasons(cfg, s.connected, s.chainlink, s.depth, s.aggTrade, s.bookTicker, nowNs) <==>
            OfSources(r) && Applies(cfg, s, nowNs, r)
  {
    StaleIsNotFresh(s.chainlink, nowNs, cfg.chainlinkMs);
    StaleIsNotFresh(s.depth, nowNs, cfg.depthMs);
    StaleIsNotFresh(s.aggTrade, nowNs, cfg.tradeMs);
  }

  predicate OfMarket(r: Reason, tf: Timeframe) {
    || r == MarketNotActive(tf) || r == MarketResolved(tf)
    || (r.BookUninitialized? && r.timeframe == tf) || (r.BookIncoherent? && r.timeframe == tf)
  }

  lemma BookReasonsMean(tf: Timeframe, side: Outcome, book: Option<Book>, r: Reason)
    ensures r in BookReasons(tf, side, book) <==>
            || (r == BookUninitialized(tf, side) && (book.None? || !book.value.initialized))
            || (r == BookIncoherent(tf, side) && book.Some? && book.value.initialized && !book.value.coherent)
  {
  }

  /** The reasons of a market are its own and those of its two books. */
  lemma JoinedReasons(tf: Timeframe, context: Context, up: Option<Book>, down: Option<Book>, r: Reason)
    ensures r in MarketReasons(tf, context, up, down) <==>
            || (r == MarketNotActive(tf) && context.state != ACTIVE)
            || r in BookReasons(tf, UP, up) || r in BookReasons(tf, DOWN, down)
            || (r == MarketResolved(tf) && (Resolved(up) || Resolved(down)))
  {
  }

  lemma MarketReasonsMean(cfg: Config, s: State, tf: Timeframe, nowNs: int, r: Reason)
    ensures r in ReasonsOf(TimeframeOf(s.contexts, s.books, tf, nowNs)) <==>
            OfMarket(r, tf) && Applies(cfg, s, nowNs, r)
  {
    if HasMarket(s.contexts, tf) {
      var up, down := SideBook(s, tf, UP), SideBook(s, tf, DOWN);
      JoinedReasons(tf, s.contexts[tf], up, down, r);
      BookReasonsMean(tf, UP, up, r);
      BookReasonsMean(tf, DOWN, down, r);
      assert TimeframeOf(s.contexts, s.books, tf, nowNs).value.reasons == MarketReasons(tf, s.contexts[tf], up, down);
      SidesTwo(r);
    }
  }

  lemma SidesTwo(r: Reason)
    ensures r.BookUninitialized? || r.BookIncoherent? ==> r.outcome == UP || r.outcome == DOWN
  {
    if r.BookUninitialized? || r.BookIncoherent? {
      match r.outcome {
        case UP =>
        case DOWN =>
      }
    }
  }

  /** A reason is listed if and only if it applies, and it is listed once. */
  lemma ReasonsMean(cfg: Config, s: State, nowNs: int, number: int, health: seq<(EventSource, SourceHealth)>, r: Reason)
    ensures r in SnapshotOf(cfg, s, nowNs, number, health).reasons <==> Applies(cfg, s, nowNs, r)
    ensures var listed := SnapshotOf(cfg, s, nowNs, number, health).reasons;
            forall i, j :: 0 <= i < j < |listed| ==> listed[i] != listed[j]
  {
    var five := TimeframeOf(s.contexts, s.books, FIVE_MINUTES, nowNs);
    var fifteen := TimeframeOf(s.contexts, s.books, FIFTEEN_MINUTES, nowNs);
    SourceReasonsMean(cfg, s, nowNs, r);
    MarketReasonsMean(cfg, s, FIVE_MINUTES, nowNs, r);
    MarketReasonsMean(cfg, s, FIFTEEN_MINUTES, nowNs, r);
    EachOnceKeeps(SourceReasons(cfg, s.connected, s.chainlink, s.depth, s.aggTrade, s.bookTicker, nowNs)
                  + MarketsReasons(five, fifteen));
    ReasonKinds(r);
  }

  lemma ReasonKinds(r: Reason)
    ensures OfSources(r) || r == NoActiveMarket || OfMarket(r, FIVE_MINUTES) || OfMarket(r, FIFTEEN_MINUTES)
  {
    if !OfSources(r) && r != NoActiveMarket {
      match r.timeframe {
        case FIVE_MINUTES =>
        case FIFTEEN_MINUTES =>
      }
    }
  }

  /** The place of a reason: those of the sources, no market, then each timeframe's, 5 minutes first. */
  function Rank(r: Reason): nat {
    match r
    case ChainlinkDisconnected => 0
    case ChainlinkStale => 1
    case BinanceDisconnected => 2
    case DepthStale => 3
    case TradeStale => 4
    case TickerMissing => 5
    case ClobDisconnected => 6
    case NoActiveMarket => 7
    case MarketNotActive(tf) => FirstRank(tf)
    case BookUninitialized(tf, outcome) => FirstRank(tf) + if outcome == UP then 1 else 2
    case BookIncoherent(tf, outcome) => FirstRank(tf) + if outcome == UP then 1 else 2
    case MarketResolved(tf) => FirstRank(tf) + 3
  }

  function FirstRank(tf: Timeframe): nat {
    if tf == FIVE_MINUTES then 8 else 12
  }

  /** The reasons are in order, each in its own place, and all places are from `from` up to `to`. */
  ghost predicate Ranked(reasons: seq<Reason>, from: nat, to: nat) {
    && (forall i :: 0 <= i < |reasons| ==> from <= Rank(reasons[i]) < to)
    && (forall i, j :: 0 <= i < j < |reasons| ==> Rank(reasons[i]) < Rank(reasons[j]))
  }

  lemma RankedJoin(a: seq<Reason>, b: seq<Reason>, from: nat, middle: nat, to: nat)
    requires from <= middle <= to && Ranked(a, from, middle) && Ranked(b, middle, to)
    ensures Ranked(a + b, from, to)
  {
  }

  lemma RankedAdd(a: seq<Reason>, holds: bool, r: Reason, from: nat)
    requires from <= Rank(r) && Ranked(a, from, Rank(r))
    ensures Ranked(a + ReasonIf(holds, r), from, Rank(r) + 1)
  {
  }

  lemma FeedsRanked(a: seq<Reason>, depth: bool, trade: bool, ticker: bool, clob: bool)
    requires Ranked(a, 0, 3)
    ensures Ranked(a + ReasonIf(depth, DepthStale) + ReasonIf(trade, TradeStale) + ReasonIf(ticker, TickerMissing)
                   + ReasonIf(clob, ClobDisconnected), 0, 7)
  {
    var b := a + ReasonIf(depth, DepthStale);
    var c := b + ReasonIf(trade, TradeStale);
    RankedAdd(a, depth, DepthStale, 0);
    RankedAdd(b, trade, TradeStale, 0);
    RankedAdd(c, ticker, TickerMissing, 0);
    RankedAdd(c + ReasonIf(ticker, TickerMissing), clob, ClobDisconnected, 0);
  }

  lemma SourcesRanked(cfg: Config, s: State, nowNs: int)
    ensures Ranked(SourceReasons(cfg, s.connected, s.chainlink, s.depth, s.aggTrade, s.bookTicker, nowNs), 0, 7)
  {
    var a := ReasonIf(CHAINLINK_RTDS !in s.connected, ChainlinkDisconnected);
    var b := a + ReasonIf(Stale(s.chainlink, nowNs, cfg.chainlinkMs), ChainlinkStale);
    RankedAdd(a, Stale(s.chainlink, nowNs, cfg.chainlinkMs), ChainlinkStale, 0);
    RankedAdd(b, BINANCE_SPOT !in s.connected, BinanceDisconnected, 0);
    FeedsRanked(b + ReasonIf(BINANCE_SPOT !in s.connected, BinanceDisconnected), Stale(s.depth, nowNs, cfg.depthMs),
                Stale(s.aggTrade, nowNs, cfg.tradeMs), s.bookTicker.None?, POLYMARKET_CLOB !in s.connected);
  }

  lemma RankedBook(a: seq<Reason>, tf: Timeframe, outcome: Outcome, book: Option<Book>, from: nat)
    requires from <= Rank(BookUninitialized(tf, outcome)) && Ranked(a, from, Rank(BookUninitialized(tf, outcome)))
    ensures Ranked(a + BookReasons(tf, outcome, book), from, Rank(BookUninitialized(tf, outcome)) + 1)
  {
  }

  lemma ContextRanked(tf: Timeframe, context: Context, up: Option<Book>, down: Option<Book>)
    ensures Ranked(MarketReasons(tf, context, up, down), FirstRank(tf), FirstRank(tf) + 4)
  {
    var a := if context.state == ACTIVE then [] else [MarketNotActive(tf)];
    var b := a + BookReasons(tf, UP, up);
    RankedBook(a, tf, UP, up, FirstRank(tf));
    RankedBook(b, tf, DOWN, down, FirstRank(tf));
    RankedAdd(b + BookReasons(tf, DOWN, down), Resolved(up) || Resolved(down), MarketResolved(tf), FirstRank(tf));
  }

  lemma MarketRanked(s: State, tf: Timeframe, nowNs: int)
    ensures Ranked(ReasonsOf(TimeframeOf(s.contexts, s.books, tf, nowNs)), FirstRank(tf), FirstRank(tf) + 4)
  {
    if HasMarket(s.contexts, tf) {
      ContextRanked(tf, s.contexts[tf], SideBook(s, tf, UP), SideBook(s, tf, DOWN));
    }
  }

  lemma {:induction false} EachOnceOfRanked(reasons: seq<Reason>, from: nat, to: nat)
    requires Ranked(reasons, from, to)
    ensures EachOnce(reasons) == reasons
  {
    if reasons != [] {
      EachOnceOfRanked(reasons[..|reasons| - 1], from, to);
    }
  }

  /** The reasons are listed in a fixed order. */
  lemma ReasonsInOrder(cfg: Config, s: State, nowNs: int, number: int, health: seq<(EventSource, SourceHealth)>)
    ensures Ranked(SnapshotOf(cfg, s, nowNs, number, health).reasons, 0, 16)
  {
    var sources := SourceReasons(cfg, s.connected, s.chainlink, s.depth, s.aggTrade, s.bookTicker, nowNs);
    var five := TimeframeOf(s.contexts, s.books, FIVE_MINUTES, nowNs);
    var fifteen := TimeframeOf(s.contexts, s.books, FIFTEEN_MINUTES, nowNs);
    var none := ReasonIf(five.None? && fifteen.None?, NoActiveMarket);
    SourcesRanked(cfg, s, nowNs);
    MarketRanked(s, FIVE_MINUTES, nowNs);
    MarketRanked(s, FIFTEEN_MINUTES, nowNs);
    RankedJoin(none, ReasonsOf(five), 7, 8, 12);
    RankedJoin(none + ReasonsOf(five), ReasonsOf(fifteen), 7, 12, 16);
    RankedJoin(sources, MarketsReasons(five, fifteen), 0, 7, 16);
    EachOnceOfRanked(sources + MarketsReasons(five, fifteen), 0, 16);
  }

  /** A snapshot's parts: its number, time and health, each timeframe in its own place, the sources' figures. */
  lemma SnapshotParts(cfg: Config, s: State, nowNs: int, number: int, health: seq<(EventSource, SourceHealth)>)
    ensures var shown := SnapshotOf(cfg, s, nowNs, number, health);
            && shown.snapshotSequence == number && shown.atNs == nowNs && shown.health == health
            && (shown.market5m.Some? <==> HasMarket(s.contexts, FIVE_MINUTES))
            && (shown.market5m.Some? ==> shown.market5m.value.timeframe == FIVE_MINUTES)
            && (shown.market15m.Some? <==> HasMarket(s.contexts, FIFTEEN_MINUTES))
            && (shown.market15m.Some? ==> shown.market15m.value.timeframe == FIFTEEN_MINUTES)
            && shown.chainlink == ChainlinkOf(s.chainlink, nowNs)
            && shown.binance == BinanceOf(s.aggTrade, s.bookTicker, s.depth, ReadAll(s.windows))
  {
  }
}
