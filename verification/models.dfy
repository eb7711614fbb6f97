/** The canonical events of the gateway (market_data/models.py). Decimals are exact reals. */
module Models {
  import opened Wrappers

  datatype EventSource = MARKET_DISCOVERY | CHAINLINK_RTDS | BINANCE_SPOT | POLYMARKET_CLOB

  datatype EventStream =
    | MARKET_WINDOW_STATE | SOURCE_STATUS | SNAPSHOT_TICK
    | CHAINLINK_PRICE | BINANCE_AGG_TRADE | BINANCE_BOOK_TICKER | BINANCE_DEPTH20
    | POLYMARKET_BOOK | POLYMARKET_PRICE_CHANGE | POLYMARKET_BEST_BID_ASK
    | POLYMARKET_LAST_TRADE | POLYMARKET_TICK_SIZE_CHANGE | POLYMARKET_MARKET_RESOLVED

  datatype TakerSide = BUY | SELL
  datatype Outcome = UP | DOWN
  datatype Timeframe = FIVE_MINUTES | FIFTEEN_MINUTES
  datatype DiscoveryState = ACTIVE | SEARCHING_NEXT | NEXT_READY | TRANSITION_FAILED

  datatype Level = Level(price: real, quantity: real)

  /** A level can only be constructed with a positive price and a non-negative quantity. */
  type PriceLevel = level: Level | level.price > 0.0 && level.quantity >= 0.0 witness Level(1.0, 0.0)

  datatype SourceHealth = SourceHealth(
    connected: bool, stale: bool, currentSessionId: Option<string>, lastMessageNs: Option<int>,
    ageMs: Option<int>, reconnectCount: int, invalidCount: int, duplicateCount: int,
    staleSessionCount: int, divergenceCount: int, protocolErrorCount: int)

  datatype MarketWindow = MarketWindow(
    timeframe: Timeframe, marketId: string, conditionId: string, slug: string,
    startNs: int, endNs: int, upTokenId: string, downTokenId: string, resolutionSource: string)

  datatype Payload =
    | ChainlinkPrice(symbol: string, price: real)
    | BinanceAggTrade(symbol: string, aggregateTradeId: int, price: real, quantity: real,
                      firstTradeId: int, lastTradeId: int, tradeTimestampNs: int, takerSide: TakerSide)
    | BinanceBookTicker(symbol: string, updateId: int, bestBidPrice: real, bestBidQuantity: real,
                        bestAskPrice: real, bestAskQuantity: real)
    | BinanceDepth20(symbol: string, lastUpdateId: int, bids: seq<PriceLevel>, asks: seq<PriceLevel>)
    | PolymarketBook(bids: seq<PriceLevel>, asks: seq<PriceLevel>, bookHash: Option<string>)
    | PolymarketPriceChange(side: string, price: real, quantity: real,
                            bestBid: Option<real>, bestAsk: Option<real>, changeHash: Option<string>)
    | PolymarketBestBidAsk(bestBid: Option<real>, bestAsk: Option<real>, spread: Option<real>)
    | PolymarketLastTrade(price: real, quantity: real, side: string, feeRateBps: Option<real>)
    | PolymarketTickSize(oldTickSize: real, newTickSize: real)
    | PolymarketResolved(winningAssetId: Option<string>, winningOutcome: Option<Outcome>,
                         affectedAssetIds: seq<string>, marketId: Option<string>, conditionId: Option<string>)
    | MarketWindowState(state: DiscoveryState, timeframe: Timeframe, currentMarket: Option<MarketWindow>,
                        nextMarket: Option<MarketWindow>, expectedTransitionNs: Option<int>,
                        updatedAtNs: int, attemptCount: int, lastError: Option<string>)
    | SourceStatus(source: EventSource, connected: bool, sessionId: Option<string>,
                   reconnectCount: int, reason: Option<string>)
    | SnapshotTick(snapshotSequence: int, scheduledNs: int, health: seq<(EventSource, SourceHealth)>)

  /** The stream an event travels on is the one its payload class belongs to. */
  function StreamOf(payload: Payload): EventStream {
    match payload
    case ChainlinkPrice(_, _) => CHAINLINK_PRICE
    case BinanceAggTrade(_, _, _, _, _, _, _, _) => BINANCE_AGG_TRADE
    case BinanceBookTicker(_, _, _, _, _, _) => BINANCE_BOOK_TICKER
    case BinanceDepth20(_, _, _, _) => BINANCE_DEPTH20
    case PolymarketBook(_, _, _) => POLYMARKET_BOOK
    case PolymarketPriceChange(_, _, _, _, _, _) => POLYMARKET_PRICE_CHANGE
    case PolymarketBestBidAsk(_, _, _) => POLYMARKET_BEST_BID_ASK
    case PolymarketLastTrade(_, _, _, _) => POLYMARKET_LAST_TRADE
    case PolymarketTickSize(_, _) => POLYMARKET_TICK_SIZE_CHANGE
    case PolymarketResolved(_, _, _, _, _) => POLYMARKET_MARKET_RESOLVED
    case MarketWindowState(_, _, _, _, _, _, _, _) => MARKET_WINDOW_STATE
    case SourceStatus(_, _, _, _, _) => SOURCE_STATUS
    case SnapshotTick(_, _, _) => SNAPSHOT_TICK
  }

  datatype Event = Event(
    schemaVersion: int, number: int, eventId: string, source: EventSource, instrument: string,
    sourceNs: Option<int>, serverNs: Option<int>, wallNs: int, monotonicNs: int,
    sourceSequence: Option<string>, timeframe: Option<Timeframe>, marketId: Option<string>,
    conditionId: Option<string>, assetId: Option<string>, outcome: Option<Outcome>,
    payload: Payload, sessionId: Option<string>)
  {
    function Stream(): EventStream { StreamOf(payload) }
  }

  /** `events` carries the ingest numbers n, n+1, n+2, ... without a gap or a duplicate. */
  ghost predicate Consecutive(events: seq<Event>) {
    forall i :: 0 <= i < |events| ==> events[i].number == events[0].number + i
  }

  ghost predicate Increasing(events: seq<Event>) {
    forall i, j :: 0 <= i < j < |events| ==> events[i].number < events[j].number
  }
}
