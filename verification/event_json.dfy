/** Canonical events as JSON values and back (market_data/models.py:392-408, 420-661), schema version 2. */
module EventJson {
  import opened Wrappers
  import opened Models
  import opened JsonValues
  import opened Lines

  // The texts of enumerations.

  function SourceText(s: EventSource): string {
    match s
    case MARKET_DISCOVERY => "market_discovery"
    case CHAINLINK_RTDS => "chainlink_rtds"
    case BINANCE_SPOT => "binance_spot"
    case POLYMARKET_CLOB => "polymarket_clob"
  }

  function SourceFrom(t: string): (r: Option<EventSource>)
    ensures r.Some? ==> SourceText(r.value) == t
  {
    if t == "market_discovery" then Some(MARKET_DISCOVERY)
    else if t == "chainlink_rtds" then Some(CHAINLINK_RTDS)
    else if t == "binance_spot" then Some(BINANCE_SPOT)
    else if t == "polymarket_clob" then Some(POLYMARKET_CLOB)
    else None
  }

  function StreamText(s: EventStream): string {
    match s
    case MARKET_WINDOW_STATE => "market_window_state"
    case SOURCE_STATUS => "source_status"
    case SNAPSHOT_TICK => "snapshot_tick"
    case CHAINLINK_PRICE => "chainlink_price"
    case BINANCE_AGG_TRADE => "binance_agg_trade"
    case BINANCE_BOOK_TICKER => "binance_book_ticker"
    case BINANCE_DEPTH20 => "binance_depth20"
    case POLYMARKET_BOOK => "polymarket_book"
    case POLYMARKET_PRICE_CHANGE => "polymarket_price_change"
    case POLYMARKET_BEST_BID_ASK => "polymarket_best_bid_ask"
    case POLYMARKET_LAST_TRADE => "polymarket_last_trade"
    case POLYMARKET_TICK_SIZE_CHANGE => "polymarket_tick_size_change"
    case POLYMARKET_MARKET_RESOLVED => "polymarket_market_resolved"
  }

  function StreamFrom(t: string): (r: Option<EventStream>)
    ensures r.Some? ==> StreamText(r.value) == t
  {
    if t == "market_window_state" then Some(MARKET_WINDOW_STATE)
    else if t == "source_status" then Some(SOURCE_STATUS)
    else if t == "snapshot_tick" then Some(SNAPSHOT_TICK)
    else if t == "chainlink_price" then Some(CHAINLINK_PRICE)
    else if t == "binance_agg_trade" then Some(BINANCE_AGG_TRADE)
    else if t == "binance_book_ticker" then Some(BINANCE_BOOK_TICKER)
    else if t == "binance_depth20" then Some(BINANCE_DEPTH20)
    else if t == "polymarket_book" then Some(POLYMARKET_BOOK)
    else if t == "polymarket_price_change" then Some(POLYMARKET_PRICE_CHANGE)
    else if t == "polymarket_best_bid_ask" then Some(POLYMARKET_BEST_BID_ASK)
    else if t == "polymarket_last_trade" then Some(POLYMARKET_LAST_TRADE)
    else if t == "polymarket_tick_size_change" then Some(POLYMARKET_TICK_SIZE_CHANGE)
    else if t == "polymarket_market_resolved" then Some(POLYMARKET_MARKET_RESOLVED)
    else None
  }

  function SideText(s: TakerSide): string {
    match s
    case BUY => "buy"
    case SELL => "sell"
  }

  function SideFrom(t: string): (r: Option<TakerSide>)
    ensures r.Some? ==> SideText(r.value) == t
  {
    if t == "buy" then Some(BUY) else if t == "sell" then Some(SELL) else None
  }

  function OutcomeText(o: Outcome): string {
    match o
    case UP => "up"
    case DOWN => "down"
  }

  function OutcomeFrom(t: string): (r: Option<Outcome>)
    ensures r.Some? ==> OutcomeText(r.value) == t
  {
    if t == "up" then Some(UP) else if t == "down" then Some(DOWN) else None
  }

  function TimeframeText(tf: Timeframe): string {
    match tf
    case FIVE_MINUTES => "5m"
    case FIFTEEN_MINUTES => "15m"
  }

  function TimeframeFrom(t: string): (r: Option<Timeframe>)
    ensures r.Some? ==> TimeframeText(r.value) == t
  {
    if t == "5m" then Some(FIVE_MINUTES) else if t == "15m" then Some(FIFTEEN_MINUTES) else None
  }

  function StateText(s: DiscoveryState): string {
    match s
    case ACTIVE => "active"
    case SEARCHING_NEXT => "searching_next"
    case NEXT_READY => "next_ready"
    case TRANSITION_FAILED => "transition_failed"
  }

  function StateFrom(t: string): (r: Option<DiscoveryState>)
    ensures r.Some? ==> StateText(r.value) == t
  {
    if t == "active" then Some(ACTIVE)
    else if t == "searching_next" then Some(SEARCHING_NEXT)
    else if t == "next_ready" then Some(NEXT_READY)
    else if t == "transition_failed" then Some(TRANSITION_FAILED)
    else None
  }

  lemma StreamReadsBack(stream: EventStream)
    ensures StreamFrom(StreamText(stream)) == Some(stream)
  {
  }

  lemma TextsReadBack(source: EventSource, stream: EventStream, side: TakerSide, outcome: Outcome, tf: Timeframe,
                      state: DiscoveryState)
    ensures SourceFrom(SourceText(source)) == Some(source)
    ensures StreamFrom(StreamText(stream)) == Some(stream)
    ensures SideFrom(SideText(side)) == Some(side) && OutcomeFrom(OutcomeText(outcome)) == Some(outcome)
    ensures TimeframeFrom(TimeframeText(tf)) == Some(tf) && StateFrom(StateText(state)) == Some(state)
  {
    StreamReadsBack(stream);
  }

  // Levels.

  function LevelJson(h: Host, l: PriceLevel): Json {
    Object(map["price" := Decimal(h, l.price), "quantity" := Decimal(h, l.quantity)])
  }

  /** Building a level rejects a price that is not positive and a negative quantity. */
  function LevelFrom(h: Host, j: Json): Option<PriceLevel> {
    if !j.Object? then None
    else
      var price :- NumberAt(h, j.fields, "price");
      var quantity :- NumberAt(h, j.fields, "quantity");
      if price > 0.0 && quantity >= 0.0 then Some(Level(price, quantity)) else None
  }

  function LevelsJson(h: Host, levels: seq<PriceLevel>): seq<Json> {
    if levels == [] then [] else [LevelJson(h, levels[0])] + LevelsJson(h, levels[1..])
  }

  function LevelsFromItems(h: Host, items: seq<Json>): Option<seq<PriceLevel>> {
    if items == [] then Some([])
    else
      var first :- LevelFrom(h, items[0]);
      var rest :- LevelsFromItems(h, items[1..]);
      Some([first] + rest)
  }

  function LevelsField(h: Host, f: Fields, key: string): Option<seq<PriceLevel>> {
    var j :- Required(f, key);
    if j.List? then LevelsFromItems(h, j.items) else None
  }

  predicate ExactLevels(h: Host, levels: seq<PriceLevel>) {
    forall i :: 0 <= i < |levels| ==> h.exact(levels[i].price) && h.exact(levels[i].quantity)
  }

  lemma LevelReadsBack(h: Host, l: PriceLevel)
    requires Sensible(h) && h.exact(l.price) && h.exact(l.quantity)
    ensures LevelFrom(h, LevelJson(h, l)) == Some(l)
  {
  }

  lemma {:induction false} LevelsReadBack(h: Host, levels: seq<PriceLevel>)
    requires Sensible(h) && ExactLevels(h, levels)
    ensures LevelsFromItems(h, LevelsJson(h, levels)) == Some(levels)
  {
    if levels != [] {
      LevelsReadBack(h, levels[1..]);
      LevelReadsBack(h, levels[0]);
      ConsLevels(h, LevelJson(h, levels[0]), LevelsJson(h, levels[1..]), levels[0], levels[1..]);
      assert [levels[0]] + levels[1..] == levels;
    }
  }

  lemma {:induction false} ConsLevels(h: Host, j: Json, items: seq<Json>, level: PriceLevel, levels: seq<PriceLevel>)
    requires LevelFrom(h, j) == Some(level) && LevelsFromItems(h, items) == Some(levels)
    ensures LevelsFromItems(h, [j] + items) == Some([level] + levels)
  {
    assert ([j] + items)[1..] == items;
  }

  // Market windows.

  function WindowJson(w: MarketWindow): Json {
    Object(map[
      "timeframe" := Text(TimeframeText(w.timeframe)), "market_id" := Text(w.marketId),
      "condition_id" := Text(w.conditionId), "slug" := Text(w.slug),
      "start_timestamp_ns" := Int(w.startNs), "end_timestamp_ns" := Int(w.endNs),
      "up_token_id" := Text(w.upTokenId), "down_token_id" := Text(w.downTokenId),
      "resolution_source" := Text(w.resolutionSource)])
  }

  function WindowFrom(h: Host, f: Fields): Option<MarketWindow> {
    var tf :- StrAt(h, f, "timeframe");
    var timeframe :- TimeframeFrom(tf);
    var marketId :- StrAt(h, f, "market_id");
    var conditionId :- StrAt(h, f, "condition_id");
    var slug :- StrAt(h, f, "slug");
    var startNs :- WholeAt(h, f, "start_timestamp_ns");
    var endNs :- WholeAt(h, f, "end_timestamp_ns");
    var up :- StrAt(h, f, "up_token_id");
    var down :- StrAt(h, f, "down_token_id");
    var source :- StrAt(h, f, "resolution_source");
    Some(MarketWindow(timeframe, marketId, conditionId, slug, startNs, endNs, up, down, source))
  }

  function MaybeWindowJson(w: Option<MarketWindow>): Json {
    if w.Some? then WindowJson(w.value) else Null
  }

  function MaybeWindowFrom(h: Host, j: Json): Option<Option<MarketWindow>> {
    if j.Null? then Some(None)
    else if !j.Object? then None
    else
      var w :- WindowFrom(h, j.fields);
      Some(Some(w))
  }

  lemma WindowReadsBack(h: Host, w: MarketWindow)
    ensures WindowFrom(h, WindowJson(w).fields) == Some(w)
  {
    TextsReadBack(CHAINLINK_RTDS, SOURCE_STATUS, BUY, UP, w.timeframe, ACTIVE);
  }

  lemma MaybeWindowReadsBack(h: Host, w: Option<MarketWindow>)
    ensures MaybeWindowFrom(h, MaybeWindowJson(w)) == Some(w)
  {
    if w.Some? {
      WindowReadsBack(h, w.value);
    }
  }

  // Health rows.

  /** Every field of `part` is in `f`. */
  predicate Has(f: Fields, part: Fields) {
    forall k <- part :: k in f && f[k] == part[k]
  }

  lemma TwoParts(a: Fields, b: Fields)
    requires a.Keys !! b.Keys
    ensures Has(a + b, a) && Has(a + b, b)
  {
    assert forall k :: k in a ==> k !in b.Keys;
  }

  function HealthStateJson(r: SourceHealth): Fields {
    map["connected" := Bool(r.connected), "stale" := Bool(r.stale),
        "current_session_id" := MaybeText(r.currentSessionId),
        "last_message_timestamp_ns" := MaybeInt(r.lastMessageNs), "age_ms" := MaybeInt(r.ageMs)]
  }

  function HealthCountsJson(r: SourceHealth): Fields {
    map["reconnect_count" := Int(r.reconnectCount), "invalid_count" := Int(r.invalidCount),
        "duplicate_count" := Int(r.duplicateCount), "stale_session_count" := Int(r.staleSessionCount),
        "divergence_count" := Int(r.divergenceCount), "protocol_error_count" := Int(r.protocolErrorCount)]
  }

  function HealthJson(r: SourceHealth): Json {
    Object(HealthStateJson(r) + HealthCountsJson(r))
  }

  datatype Counts = Counts(reconnects: int, invalid: int, duplicates: int, staleSessions: int,
                           divergences: int, protocolErrors: int)

  function CountsFrom(h: Host, f: Fields): Option<Counts> {
    var reconnects :- WholeAt(h, f, "reconnect_count");
    var invalid :- WholeAt(h, f, "invalid_count");
    var duplicates :- WholeAt(h, f, "duplicate_count");
    var staleSessions :- WholeOr(h, f, "stale_session_count", 0);
    var divergences :- WholeOr(h, f, "divergence_count", 0);
    var protocolErrors :- WholeOr(h, f, "protocol_error_count", 0);
    Some(Counts(reconnects, invalid, duplicates, staleSessions, divergences, protocolErrors))
  }

  function HealthFrom(h: Host, f: Fields): Option<SourceHealth> {
    var connected :- TruthAt(f, "connected");
    var stale :- TruthAt(f, "stale");
    var last :- MaybeWholeAt(h, f, "last_message_timestamp_ns");
    var age :- MaybeWholeAt(h, f, "age_ms");
    var n :- CountsFrom(h, f);
    Some(SourceHealth(connected, stale, TextAt(f, "current_session_id"), last, age, n.reconnects, n.invalid,
                      n.duplicates, n.staleSessions, n.divergences, n.protocolErrors))
  }

  lemma CountsReadBack(h: Host, f: Fields, r: SourceHealth)
    requires Has(f, HealthCountsJson(r))
    ensures CountsFrom(h, f) == Some(Counts(r.reconnectCount, r.invalidCount, r.duplicateCount, r.staleSessionCount,
                                            r.divergenceCount, r.protocolErrorCount))
  {
    var part := HealthCountsJson(r);
    assert "reconnect_count" in part && "invalid_count" in part && "duplicate_count" in part;
    assert "stale_session_count" in part && "divergence_count" in part && "protocol_error_count" in part;
  }

  lemma HealthFieldsReadBack(h: Host, f: Fields, r: SourceHealth)
    requires Has(f, HealthStateJson(r)) && Has(f, HealthCountsJson(r))
    ensures HealthFrom(h, f) == Some(r)
  {
    CountsReadBack(h, f, r);
    var part := HealthStateJson(r);
    assert "connected" in part && "stale" in part && "current_session_id" in part;
    assert "last_message_timestamp_ns" in part && "age_ms" in part;
  }

  lemma HealthApart(r: SourceHealth)
    ensures HealthStateJson(r).Keys !! HealthCountsJson(r).Keys
  {
  }

  lemma HealthReadsBack(h: Host, r: SourceHealth)
    ensures HealthFrom(h, HealthJson(r).fields) == Some(r)
  {
    HealthApart(r);
    TwoParts(HealthStateJson(r), HealthCountsJson(r));
    HealthFieldsReadBack(h, HealthStateJson(r) + HealthCountsJson(r), r);
  }

  function RowJson(row: (EventSource, SourceHealth)): Json {
    List([Text(SourceText(row.0)), HealthJson(row.1)])
  }

  function RowsJson(rows: seq<(EventSource, SourceHealth)>): seq<Json> {
    if rows == [] then [] else [RowJson(rows[0])] + RowsJson(rows[1..])
  }

  function RowFrom(h: Host, j: Json): Option<(EventSource, SourceHealth)> {
    if !j.List? || |j.items| != 2 || !j.items[1].Object? then None
    else
      var source :- SourceFrom(Str(h, j.items[0]));
      var health :- HealthFrom(h, j.items[1].fields);
      Some((source, health))
  }

  function RowsFrom(h: Host, items: seq<Json>): Option<seq<(EventSource, SourceHealth)>> {
    if items == [] then Some([])
    else
      var first :- RowFrom(h, items[0]);
      var rest :- RowsFrom(h, items[1..]);
      Some([first] + rest)
  }

  lemma RowReadsBack(h: Host, row: (EventSource, SourceHealth))
    ensures RowFrom(h, RowJson(row)) == Some(row)
  {
    HealthReadsBack(h, row.1);
    TextsReadBack(row.0, SOURCE_STATUS, BUY, UP, FIVE_MINUTES, ACTIVE);
  }

  lemma {:induction false} RowsReadBack(h: Host, rows: seq<(EventSource, SourceHealth)>)
    ensures RowsFrom(h, RowsJson(rows)) == Some(rows)
  {
    if rows != [] {
      RowsReadBack(h, rows[1..]);
      RowReadsBack(h, rows[0]);
      ConsRows(h, RowJson(rows[0]), RowsJson(rows[1..]), rows[0], rows[1..]);
      assert [rows[0]] + rows[1..] == rows;
    }
  }

  lemma {:induction false} ConsRows(h: Host, j: Json, items: seq<Json>, row: (EventSource, SourceHealth),
                                    rows: seq<(EventSource, SourceHealth)>)
    requires RowFrom(h, j) == Some(row) && RowsFrom(h, items) == Some(rows)
    ensures RowsFrom(h, [j] + items) == Some([row] + rows)
  {
    assert ([j] + items)[1..] == items;
  }

  // Lists of texts.

  function TextsJson(texts: seq<string>): seq<Json> {
    if texts == [] then [] else [Text(texts[0])] + TextsJson(texts[1..])
  }

  function TextsFrom(h: Host, items: seq<Json>): seq<string> {
    if items == [] then [] else [Str(h, items[0])] + TextsFrom(h, items[1..])
  }

  lemma {:induction false} TextListReadsBack(h: Host, texts: seq<string>)
    ensures TextsFrom(h, TextsJson(texts)) == texts
  {
    if texts != [] {
      TextListReadsBack(h, texts[1..]);
      assert TextsJson(texts)[1..] == TextsJson(texts[1..]);
    }
  }

  // Which decimals a payload carries.

  predicate ExactMaybe(h: Host, d: Option<real>) {
    d.Some? ==> h.exact(d.value)
  }

  /** Every decimal number of the payload is one the host can write. */
  predicate ExactPayload(h: Host, p: Payload) {
    match p
    case ChainlinkPrice(_, _) =>
      h.exact(p.price)
    case BinanceAggTrade(_, _, _, _, _, _, _, _) =>
      h.exact(p.price) && h.exact(p.quantity)
    case BinanceBookTicker(_, _, _, _, _, _) =>
      h.exact(p.bestBidPrice) && h.exact(p.bestBidQuantity) && h.exact(p.bestAskPrice) && h.exact(p.bestAskQuantity)
    case BinanceDepth20(_, _, _, _) =>
      ExactLevels(h, p.bids) && ExactLevels(h, p.asks)
    case PolymarketBook(_, _, _) =>
      ExactLevels(h, p.bids) && ExactLevels(h, p.asks)
    case PolymarketPriceChange(_, _, _, _, _, _) =>
      h.exact(p.price) && h.exact(p.quantity) && ExactMaybe(h, p.bestBid) && ExactMaybe(h, p.bestAsk)
    case PolymarketBestBidAsk(_, _, _) =>
      ExactMaybe(h, p.bestBid) && ExactMaybe(h, p.bestAsk) && ExactMaybe(h, p.spread)
    case PolymarketLastTrade(_, _, _, _) =>
      h.exact(p.price) && h.exact(p.quantity) && ExactMaybe(h, p.feeRateBps)
    case PolymarketTickSize(_, _) =>
      h.exact(p.oldTickSize) && h.exact(p.newTickSize)
    case _ => true
  }

  function MaybeOutcomeAt(h: Host, f: Fields, key: string): Option<Option<Outcome>> {
    if Get(f, key).Null? then Some(None)
    else
      var outcome :- OutcomeFrom(Str(h, Get(f, key)));
      Some(Some(outcome))
  }

  function TextsAt(h: Host, f: Fields, key: string): Option<seq<string>> {
    if key !in f then Some([])
    else if f[key].List? then Some(TextsFrom(h, f[key].items))
    else None
  }

  function RowsAt(h: Host, f: Fields, key: string): Option<seq<(EventSource, SourceHealth)>> {
    if Get(f, key).List? then RowsFrom(h, Get(f, key).items) else None
  }


  // Payloads, one kind at a time.

  function ChainlinkPriceJson(h: Host, p: Payload): Fields
    requires p.ChainlinkPrice?
  {
    map["symbol" := Text(p.symbol), "price" := Decimal(h, p.price)]
  }

  function ChainlinkPriceFrom(h: Host, f: Fields): Option<Payload> {
    var symbol :- StrAt(h, f, "symbol");
    var price :- NumberAt(h, f, "price");
    Some(ChainlinkPrice(symbol, price))
  }

  lemma ChainlinkPriceReadsBack(h: Host, p: Payload)
    requires Sensible(h) && p.ChainlinkPrice? && ExactPayload(h, p)
    ensures ChainlinkPriceFrom(h, ChainlinkPriceJson(h, p)) == Some(p)
  {
  }

  function BinanceAggTradeJson(h: Host, p: Payload): Fields
    requires p.BinanceAggTrade?
  {
    map[
      "symbol" := Text(p.symbol), "aggregate_trade_id" := Int(p.aggregateTradeId),
      "price" := Decimal(h, p.price), "quantity" := Decimal(h, p.quantity),
      "first_trade_id" := Int(p.firstTradeId), "last_trade_id" := Int(p.lastTradeId),
      "trade_timestamp_ns" := Int(p.tradeTimestampNs), "taker_side" := Text(SideText(p.takerSide))]
  }

  function BinanceAggTradeFrom(h: Host, f: Fields): Option<Payload> {
    var symbol :- StrAt(h, f, "symbol");
    var aggregateTradeId :- WholeAt(h, f, "aggregate_trade_id");
    var price :- NumberAt(h, f, "price");
    var quantity :- NumberAt(h, f, "quantity");
    var firstTradeId :- WholeAt(h, f, "first_trade_id");
    var lastTradeId :- WholeAt(h, f, "last_trade_id");
    var tradeTimestampNs :- WholeAt(h, f, "trade_timestamp_ns");
    var takerSideText :- StrAt(h, f, "taker_side");
    var takerSide :- SideFrom(takerSideText);
    Some(BinanceAggTrade(symbol, aggregateTradeId, price, quantity,
                         firstTradeId, lastTradeId, tradeTimestampNs, takerSide))
  }

  lemma BinanceAggTradeReadsBack(h: Host, p: Payload)
    requires Sensible(h) && p.BinanceAggTrade? && ExactPayload(h, p)
    ensures BinanceAggTradeFrom(h, BinanceAggTradeJson(h, p)) == Some(p)
  {
  }

  function BinanceBookTickerJson(h: Host, p: Payload): Fields
    requires p.BinanceBookTicker?
  {
    map[
      "symbol" := Text(p.symbol), "update_id" := Int(p.updateId),
      "best_bid_price" := Decimal(h, p.bestBidPrice), "best_bid_quantity" := Decimal(h, p.bestBidQuantity),
      "best_ask_price" := Decimal(h, p.bestAskPrice), "best_ask_quantity" := Decimal(h, p.bestAskQuantity)]
  }

  function BinanceBookTickerFrom(h: Host, f: Fields): Option<Payload> {
    var symbol :- StrAt(h, f, "symbol");
    var updateId :- WholeAt(h, f, "update_id");
    var bestBidPrice :- NumberAt(h, f, "best_bid_price");
    var bestBidQuantity :- NumberAt(h, f, "best_bid_quantity");
    var bestAskPrice :- NumberAt(h, f, "best_ask_price");
    var bestAskQuantity :- NumberAt(h, f, "best_ask_quantity");
    Some(BinanceBookTicker(symbol, updateId, bestBidPrice, bestBidQuantity, bestAskPrice, bestAskQuantity))
  }

  lemma BinanceBookTickerReadsBack(h: Host, p: Payload)
    requires Sensible(h) && p.BinanceBookTicker? && ExactPayload(h, p)
    ensures BinanceBookTickerFrom(h, BinanceBookTickerJson(h, p)) == Some(p)
  {
  }

  function BinanceDepth20Json(h: Host, p: Payload): Fields
    requires p.BinanceDepth20?
  {
    map[
      "symbol" := Text(p.symbol), "last_update_id" := Int(p.lastUpdateId),
      "bids" := List(LevelsJson(h, p.bids)), "asks" := List(LevelsJson(h, p.asks))]
  }

  function BinanceDepth20From(h: Host, f: Fields): Option<Payload> {
    var symbol :- StrAt(h, f, "symbol");
    var lastUpdateId :- WholeAt(h, f, "last_update_id");
    var bids :- LevelsField(h, f, "bids");
    var asks :- LevelsField(h, f, "asks");
    Some(BinanceDepth20(symbol, lastUpdateId, bids, asks))
  }

  lemma BinanceDepth20ReadsBack(h: Host, p: Payload)
    requires Sensible(h) && p.BinanceDepth20? && ExactPayload(h, p)
    ensures BinanceDepth20From(h, BinanceDepth20Json(h, p)) == Some(p)
  {
    LevelsReadBack(h, p.bids);
    LevelsReadBack(h, p.asks);
  }

  function PolymarketBookJson(h: Host, p: Payload): Fields
    requires p.PolymarketBook?
  {
    map[
      "bids" := List(LevelsJson(h, p.bids)), "asks" := List(LevelsJson(h, p.asks)),
      "book_hash" := MaybeText(p.bookHash)]
  }

  function PolymarketBookFrom(h: Host, f: Fields): Option<Payload> {
    var bids :- LevelsField(h, f, "bids");
    var asks :- LevelsField(h, f, "asks");
    Some(PolymarketBook(bids, asks, TextAt(f, "book_hash")))
  }

  lemma PolymarketBookReadsBack(h: Host, p: Payload)
    requires Sensible(h) && p.PolymarketBook? && ExactPayload(h, p)
    ensures PolymarketBookFrom(h, PolymarketBookJson(h, p)) == Some(p)
  {
    LevelsReadBack(h, p.bids);
    LevelsReadBack(h, p.asks);
  }

  function PolymarketPriceChangeJson(h: Host, p: Payload): Fields
    requires p.PolymarketPriceChange?
  {
    map[
      "side" := Text(p.side), "price" := Decimal(h, p.price), "quantity" := Decimal(h, p.quantity),
      "best_bid" := MaybeDecimal(h, p.bestBid), "best_ask" := MaybeDecimal(h, p.bestAsk),
      "change_hash" := MaybeText(p.changeHash)]
  }

  function PolymarketPriceChangeFrom(h: Host, f: Fields): Option<Payload> {
    var side :- StrAt(h, f, "side");
    var price :- NumberAt(h, f, "price");
    var quantity :- NumberAt(h, f, "quantity");
    var bestBid :- MaybeNumberAt(h, f, "best_bid");
    var bestAsk :- MaybeNumberAt(h, f, "best_ask");
    Some(PolymarketPriceChange(side, price, quantity, bestBid, bestAsk, TextAt(f, "change_hash")))
  }

  lemma PolymarketPriceChangeReadsBack(h: Host, p: Payload)
    requires Sensible(h) && p.PolymarketPriceChange? && ExactPayload(h, p)
    ensures PolymarketPriceChangeFrom(h, PolymarketPriceChangeJson(h, p)) == Some(p)
  {
  }

  function PolymarketBestBidAskJson(h: Host, p: Payload): Fields
    requires p.PolymarketBestBidAsk?
  {
    map[
      "best_bid" := MaybeDecimal(h, p.bestBid), "best_ask" := MaybeDecimal(h, p.bestAsk),
      "spread" := MaybeDecimal(h, p.spread)]
  }

  function PolymarketBestBidAskFrom(h: Host, f: Fields): Option<Payload> {
    var bestBid :- MaybeNumberAt(h, f, "best_bid");
    var bestAsk :- MaybeNumberAt(h, f, "best_ask");
    var spread :- MaybeNumberAt(h, f, "spread");
    Some(PolymarketBestBidAsk(bestBid, bestAsk, spread))
  }

  lemma PolymarketBestBidAskReadsBack(h: Host, p: Payload)
    requires Sensible(h) && p.PolymarketBestBidAsk? && ExactPayload(h, p)
    ensures PolymarketBestBidAskFrom(h, PolymarketBestBidAskJson(h, p)) == Some(p)
  {
  }

  function PolymarketLastTradeJson(h: Host, p: Payload): Fields
    requires p.PolymarketLastTrade?
  {
    map[
      "price" := Decimal(h, p.price), "quantity" := Decimal(h, p.quantity), "side" := Text(p.side),
      "fee_rate_bps" := MaybeDecimal(h, p.feeRateBps)]
  }

  function PolymarketLastTradeFrom(h: Host, f: Fields): Option<Payload> {
    var price :- NumberAt(h, f, "price");
    var quantity :- NumberAt(h, f, "quantity");
    var side :- StrAt(h, f, "side");
    var feeRateBps :- MaybeNumberAt(h, f, "fee_rate_bps");
    Some(PolymarketLastTrade(price, quantity, side, feeRateBps))
  }

  lemma PolymarketLastTradeReadsBack(h: Host, p: Payload)
    requires Sensible(h) && p.PolymarketLastTrade? && ExactPayload(h, p)
    ensures PolymarketLastTradeFrom(h, PolymarketLastTradeJson(h, p)) == Some(p)
  {
  }

  function PolymarketTickSizeJson(h: Host, p: Payload): Fields
    requires p.PolymarketTickSize?
  {
    map["old_tick_size" := Decimal(h, p.oldTickSize), "new_tick_size" := Decimal(h, p.newTickSize)]
  }

  function PolymarketTickSizeFrom(h: Host, f: Fields): Option<Payload> {
    var oldTickSize :- NumberAt(h, f, "old_tick_size");
    var newTickSize :- NumberAt(h, f, "new_tick_size");
    Some(PolymarketTickSize(oldTickSize, newTickSize))
  }

  lemma PolymarketTickSizeReadsBack(h: Host, p: Payload)
    requires Sensible(h) && p.PolymarketTickSize? && ExactPayload(h, p)
    ensures PolymarketTickSizeFrom(h, PolymarketTickSizeJson(h, p)) == Some(p)
  {
  }

  function PolymarketResolvedJson(h: Host, p: Payload): Fields
    requires p.PolymarketResolved?
  {
    map[
      "winning_asset_id" := MaybeText(p.winningAssetId),
      "winning_outcome" := if p.winningOutcome.Some? then Text(OutcomeText(p.winningOutcome.value)) else Null,
      "affected_asset_ids" := List(TextsJson(p.affectedAssetIds)), "market_id" := MaybeText(p.marketId),
      "condition_id" := MaybeText(p.conditionId)]
  }

  function PolymarketResolvedFrom(h: Host, f: Fields): Option<Payload> {
    var winningOutcome :- MaybeOutcomeAt(h, f, "winning_outcome");
    var affectedAssetIds :- TextsAt(h, f, "affected_asset_ids");
    Some(PolymarketResolved(TextAt(f, "winning_asset_id"), winningOutcome,
                            affectedAssetIds, TextAt(f, "market_id"), TextAt(f, "condition_id")))
  }

  lemma PolymarketResolvedReadsBack(h: Host, p: Payload)
    requires Sensible(h) && p.PolymarketResolved? && ExactPayload(h, p)
    ensures PolymarketResolvedFrom(h, PolymarketResolvedJson(h, p)) == Some(p)
  {
    TextListReadsBack(h, p.affectedAssetIds);
  }

  function SourceStatusJson(h: Host, p: Payload): Fields
    requires p.SourceStatus?
  {
    map[
      "source" := Text(SourceText(p.source)), "connected" := Bool(p.connected),
      "session_id" := MaybeText(p.sessionId), "reconnect_count" := Int(p.reconnectCount),
      "reason" := MaybeText(p.reason)]
  }

  function SourceStatusFrom(h: Host, f: Fields): Option<Payload> {
    var sourceText :- StrAt(h, f, "source");
    var source :- SourceFrom(sourceText);
    var connected :- TruthAt(f, "connected");
    var reconnectCount :- WholeAt(h, f, "reconnect_count");
    Some(SourceStatus(source, connected, TextAt(f, "session_id"), reconnectCount, TextAt(f, "reason")))
  }

  lemma SourceStatusReadsBack(h: Host, p: Payload)
    requires Sensible(h) && p.SourceStatus? && ExactPayload(h, p)
    ensures SourceStatusFrom(h, SourceStatusJson(h, p)) == Some(p)
  {
  }

  function SnapshotTickJson(h: Host, p: Payload): Fields
    requires p.SnapshotTick?
  {
    map[
      "snapshot_sequence" := Int(p.snapshotSequence), "scheduled_timestamp_ns" := Int(p.scheduledNs),
      "health" := List(RowsJson(p.health))]
  }

  function SnapshotTickFrom(h: Host, f: Fields): Option<Payload> {
    var snapshotSequence :- WholeAt(h, f, "snapshot_sequence");
    var scheduledNs :- WholeAt(h, f, "scheduled_timestamp_ns");
    var health :- RowsAt(h, f, "health");
    Some(SnapshotTick(snapshotSequence, scheduledNs, health))
  }

  lemma SnapshotTickReadsBack(h: Host, p: Payload)
    requires Sensible(h) && p.SnapshotTick? && ExactPayload(h, p)
    ensures SnapshotTickFrom(h, SnapshotTickJson(h, p)) == Some(p)
  {
    RowsReadBack(h, p.health);
  }

  function MarketsJson(p: Payload): Fields
    requires p.MarketWindowState?
  {
    map["state" := Text(StateText(p.state)), "timeframe" := Text(TimeframeText(p.timeframe)),
        "current_market" := MaybeWindowJson(p.currentMarket), "next_market" := MaybeWindowJson(p.nextMarket)]
  }

  function SearchJson(p: Payload): Fields
    requires p.MarketWindowState?
  {
    map["expected_transition_timestamp_ns" := MaybeInt(p.expectedTransitionNs),
        "updated_at_timestamp_ns" := Int(p.updatedAtNs), "attempt_count" := Int(p.attemptCount),
        "last_error" := MaybeText(p.lastError)]
  }

  function MarketWindowStateJson(h: Host, p: Payload): Fields
    requires p.MarketWindowState?
  {
    MarketsJson(p) + SearchJson(p)
  }

  function MarketWindowStateFrom(h: Host, f: Fields): Option<Payload> {
    var stateText :- StrAt(h, f, "state");
    var state :- StateFrom(stateText);
    var timeframeText :- StrAt(h, f, "timeframe");
    var timeframe :- TimeframeFrom(timeframeText);
    var currentMarket :- MaybeWindowFrom(h, Get(f, "current_market"));
    var nextMarket :- MaybeWindowFrom(h, Get(f, "next_market"));
    var expectedTransitionNs :- MaybeWholeAt(h, f, "expected_transition_timestamp_ns");
    var updatedAtNs :- WholeAt(h, f, "updated_at_timestamp_ns");
    var attemptCount :- WholeAt(h, f, "attempt_count");
    Some(MarketWindowState(state, timeframe, currentMarket, nextMarket,
                           expectedTransitionNs, updatedAtNs, attemptCount, TextAt(f, "last_error")))
  }

  lemma MarketsFields(h: Host, f: Fields, p: Payload)
    requires p.MarketWindowState? && Has(f, MarketsJson(p))
    ensures StrAt(h, f, "state") == Some(StateText(p.state))
    ensures StrAt(h, f, "timeframe") == Some(TimeframeText(p.timeframe))
    ensures MaybeWindowFrom(h, Get(f, "current_market")) == Some(p.currentMarket)
    ensures MaybeWindowFrom(h, Get(f, "next_market")) == Some(p.nextMarket)
  {
    var part := MarketsJson(p);
    assert "state" in part && "timeframe" in part && "current_market" in part && "next_market" in part;
    MaybeWindowReadsBack(h, p.currentMarket);
    MaybeWindowReadsBack(h, p.nextMarket);
  }

  lemma SearchFields(h: Host, f: Fields, p: Payload)
    requires p.MarketWindowState? && Has(f, SearchJson(p))
    ensures MaybeWholeAt(h, f, "expected_transition_timestamp_ns") == Some(p.expectedTransitionNs)
    ensures WholeAt(h, f, "updated_at_timestamp_ns") == Some(p.updatedAtNs)
    ensures WholeAt(h, f, "attempt_count") == Some(p.attemptCount) && TextAt(f, "last_error") == p.lastError
  {
    var part := SearchJson(p);
    assert "expected_transition_timestamp_ns" in part && "updated_at_timestamp_ns" in part;
    assert "attempt_count" in part && "last_error" in part;
  }

  lemma MarketsApart(p: Payload)
    requires p.MarketWindowState?
    ensures MarketsJson(p).Keys !! SearchJson(p).Keys
  {
  }

  lemma MarketWindowStateReadsBack(h: Host, p: Payload)
    requires Sensible(h) && p.MarketWindowState? && ExactPayload(h, p)
    ensures MarketWindowStateFrom(h, MarketWindowStateJson(h, p)) == Some(p)
  {
    var f := MarketWindowStateJson(h, p);
    MarketsApart(p);
    TwoParts(MarketsJson(p), SearchJson(p));
    MarketsFields(h, f, p);
    SearchFields(h, f, p);
    TextsReadBack(CHAINLINK_RTDS, SOURCE_STATUS, BUY, UP, p.timeframe, p.state);
  }

  // Any payload, and the event around it.

  function PayloadJson(h: Host, p: Payload): Fields {
    match p
    case ChainlinkPrice(_, _) => ChainlinkPriceJson(h, p)
    case BinanceAggTrade(_, _, _, _, _, _, _, _) => BinanceAggTradeJson(h, p)
    case BinanceBookTicker(_, _, _, _, _, _) => BinanceBookTickerJson(h, p)
    case BinanceDepth20(_, _, _, _) => BinanceDepth20Json(h, p)
    case PolymarketBook(_, _, _) => PolymarketBookJson(h, p)
    case PolymarketPriceChange(_, _, _, _, _, _) => PolymarketPriceChangeJson(h, p)
    case PolymarketBestBidAsk(_, _, _) => PolymarketBestBidAskJson(h, p)
    case PolymarketLastTrade(_, _, _, _) => PolymarketLastTradeJson(h, p)
    case PolymarketTickSize(_, _) => PolymarketTickSizeJson(h, p)
    case PolymarketResolved(_, _, _, _, _) => PolymarketResolvedJson(h, p)
    case SourceStatus(_, _, _, _, _) => SourceStatusJson(h, p)
    case SnapshotTick(_, _, _) => SnapshotTickJson(h, p)
    case MarketWindowState(_, _, _, _, _, _, _, _) => MarketWindowStateJson(h, p)
  }

  function PayloadFrom(h: Host, stream: EventStream, f: Fields): Option<Payload> {
    match stream
    case CHAINLINK_PRICE => ChainlinkPriceFrom(h, f)
    case BINANCE_AGG_TRADE => BinanceAggTradeFrom(h, f)
    case BINANCE_BOOK_TICKER => BinanceBookTickerFrom(h, f)
    case BINANCE_DEPTH20 => BinanceDepth20From(h, f)
    case POLYMARKET_BOOK => PolymarketBookFrom(h, f)
    case POLYMARKET_PRICE_CHANGE => PolymarketPriceChangeFrom(h, f)
    case POLYMARKET_BEST_BID_ASK => PolymarketBestBidAskFrom(h, f)
    case POLYMARKET_LAST_TRADE => PolymarketLastTradeFrom(h, f)
    case POLYMARKET_TICK_SIZE_CHANGE => PolymarketTickSizeFrom(h, f)
    case POLYMARKET_MARKET_RESOLVED => PolymarketResolvedFrom(h, f)
    case SOURCE_STATUS => SourceStatusFrom(h, f)
    case SNAPSHOT_TICK => SnapshotTickFrom(h, f)
    case MARKET_WINDOW_STATE => MarketWindowStateFrom(h, f)
  }

  lemma TradesReadBack(h: Host, p: Payload)
    requires Sensible(h) && ExactPayload(h, p) && (p.ChainlinkPrice? || p.BinanceAggTrade?)
    ensures PayloadFrom(h, StreamOf(p), PayloadJson(h, p)) == Some(p)
  {
    if p.ChainlinkPrice? {
      ChainlinkPriceReadsBack(h, p);
    } else {
      BinanceAggTradeReadsBack(h, p);
    }
  }

  lemma QuotesReadBack(h: Host, p: Payload)
    requires Sensible(h) && ExactPayload(h, p) && (p.BinanceBookTicker? || p.BinanceDepth20?)
    ensures PayloadFrom(h, StreamOf(p), PayloadJson(h, p)) == Some(p)
  {
    if p.BinanceBookTicker? {
      BinanceBookTickerReadsBack(h, p);
    } else {
      BinanceDepth20ReadsBack(h, p);
    }
  }

  lemma ClobReadsBack(h: Host, p: Payload)
    requires Sensible(h) && ExactPayload(h, p)
    requires p.PolymarketBook? || p.PolymarketPriceChange? || p.PolymarketBestBidAsk?
    ensures PayloadFrom(h, StreamOf(p), PayloadJson(h, p)) == Some(p)
  {
    if p.PolymarketBook? {
      PolymarketBookReadsBack(h, p);
    } else if p.PolymarketPriceChange? {
      PolymarketPriceChangeReadsBack(h, p);
    } else {
      PolymarketBestBidAskReadsBack(h, p);
    }
  }

  lemma ClobReadsBackToo(h: Host, p: Payload)
    requires Sensible(h) && ExactPayload(h, p)
    requires p.PolymarketLastTrade? || p.PolymarketTickSize? || p.PolymarketResolved?
    ensures PayloadFrom(h, StreamOf(p), PayloadJson(h, p)) == Some(p)
  {
    if p.PolymarketLastTrade? {
      PolymarketLastTradeReadsBack(h, p);
    } else if p.PolymarketTickSize? {
      PolymarketTickSizeReadsBack(h, p);
    } else {
      PolymarketResolvedReadsBack(h, p);
    }
  }

  lemma ControlReadsBack(h: Host, p: Payload)
    requires Sensible(h) && ExactPayload(h, p)
    requires p.SourceStatus? || p.SnapshotTick? || p.MarketWindowState?
    ensures PayloadFrom(h, StreamOf(p), PayloadJson(h, p)) == Some(p)
  {
    if p.SourceStatus? {
      SourceStatusReadsBack(h, p);
    } else if p.SnapshotTick? {
      SnapshotTickReadsBack(h, p);
    } else {
      MarketWindowStateReadsBack(h, p);
    }
  }

  lemma PayloadReadsBack(h: Host, p: Payload)
    requires Sensible(h) && ExactPayload(h, p)
    ensures PayloadFrom(h, StreamOf(p), PayloadJson(h, p)) == Some(p)
  {
    if p.ChainlinkPrice? || p.BinanceAggTrade? {
      TradesReadBack(h, p);
    } else if p.BinanceBookTicker? || p.BinanceDepth20? {
      QuotesReadBack(h, p);
    } else if p.SourceStatus? || p.SnapshotTick? || p.MarketWindowState? {
      ControlReadsBack(h, p);
    } else if p.PolymarketBook? || p.PolymarketPriceChange? || p.PolymarketBestBidAsk? {
      ClobReadsBack(h, p);
    } else {
      ClobReadsBackToo(h, p);
    }
  }

  function EventJson(h: Host, e: Event): Fields {
    IdentityJson(e) + TimesJson(e) + MarketJson(e) + ContentJson(h, e)
  }

  function ContentJson(h: Host, e: Event): Fields {
    map["payload" := Object(PayloadJson(h, e.payload)), "source_session_id" := MaybeText(e.sessionId)]
  }

  function IdentityJson(e: Event): Fields {
    map["schema_version" := Int(e.schemaVersion), "ingest_sequence" := Int(e.number), "event_id" := Text(e.eventId),
        "source" := Text(SourceText(e.source)), "stream" := Text(StreamText(e.Stream())),
        "instrument" := Text(e.instrument)]
  }

  function TimesJson(e: Event): Fields {
    map["source_timestamp_ns" := MaybeInt(e.sourceNs), "server_timestamp_ns" := MaybeInt(e.serverNs),
        "received_wall_timestamp_ns" := Int(e.wallNs), "received_monotonic_ns" := Int(e.monotonicNs),
        "source_sequence" := MaybeText(e.sourceSequence)]
  }

  function MarketJson(e: Event): Fields {
    map["timeframe" := if e.timeframe.Some? then Text(TimeframeText(e.timeframe.value)) else Null,
        "market_id" := MaybeText(e.marketId), "condition_id" := MaybeText(e.conditionId),
        "asset_id" := MaybeText(e.assetId),
        "outcome" := if e.outcome.Some? then Text(OutcomeText(e.outcome.value)) else Null]
  }

  function MaybeTimeframeAt(h: Host, f: Fields, key: string): Option<Option<Timeframe>> {
    if Get(f, key).Null? then Some(None)
    else
      var tf :- TimeframeFrom(Str(h, Get(f, key)));
      Some(Some(tf))
  }

  /** Any schema version but 2 is refused here. */
  function EventFrom(h: Host, f: Fields): Option<Event> {
    var version :- WholeAt(h, f, "schema_version");
    var streamText :- StrAt(h, f, "stream");
    var stream :- StreamFrom(streamText);
    var raw :- Required(f, "payload");
    if version != 2 || !raw.Object? then None
    else
      var payload :- PayloadFrom(h, stream, raw.fields);
      EnvelopeFrom(h, f, version, payload)
  }

  datatype Identity = Identity(number: int, eventId: string, source: EventSource, instrument: string)
  datatype Times = Times(sourceNs: Option<int>, serverNs: Option<int>, wallNs: int, monotonicNs: int)

  function IdentityFrom(h: Host, f: Fields): Option<Identity> {
    var number :- WholeAt(h, f, "ingest_sequence");
    var eventId :- StrAt(h, f, "event_id");
    var sourceText :- StrAt(h, f, "source");
    var source :- SourceFrom(sourceText);
    var instrument :- StrAt(h, f, "instrument");
    Some(Identity(number, eventId, source, instrument))
  }

  function TimesFrom(h: Host, f: Fields): Option<Times> {
    var sourceNs :- MaybeWholeAt(h, f, "source_timestamp_ns");
    var serverNs :- MaybeWholeAt(h, f, "server_timestamp_ns");
    var wallNs :- WholeAt(h, f, "received_wall_timestamp_ns");
    var monotonicNs :- WholeAt(h, f, "received_monotonic_ns");
    Some(Times(sourceNs, serverNs, wallNs, monotonicNs))
  }

  function EnvelopeFrom(h: Host, f: Fields, version: int, payload: Payload): Option<Event> {
    var id :- IdentityFrom(h, f);
    var times :- TimesFrom(h, f);
    var timeframe :- MaybeTimeframeAt(h, f, "timeframe");
    var outcome :- MaybeOutcomeAt(h, f, "outcome");
    Some(Event(version, id.number, id.eventId, id.source, id.instrument,
               times.sourceNs, times.serverNs, times.wallNs, times.monotonicNs,
               TextAt(f, "source_sequence"), timeframe, TextAt(f, "market_id"), TextAt(f, "condition_id"),
               TextAt(f, "asset_id"), outcome, payload, TextAt(f, "source_session_id")))
  }

  lemma PartsOfUnion(a: Fields, b: Fields, c: Fields, d: Fields)
    requires a.Keys !! b.Keys && a.Keys !! c.Keys && a.Keys !! d.Keys
    requires b.Keys !! c.Keys && b.Keys !! d.Keys && c.Keys !! d.Keys
    ensures Has(a + b + c + d, a) && Has(a + b + c + d, b) && Has(a + b + c + d, c) && Has(a + b + c + d, d)
  {
    assert forall k :: k in a ==> k !in b.Keys && k !in c.Keys && k !in d.Keys;
    assert forall k :: k in b ==> k !in c.Keys && k !in d.Keys;
    assert forall k :: k in c ==> k !in d.Keys;
  }

  lemma IdentityApart(e: Event)
    ensures IdentityJson(e).Keys !! TimesJson(e).Keys
  {
  }

  lemma MarketApart(e: Event)
    ensures IdentityJson(e).Keys !! MarketJson(e).Keys
  {
  }

  lemma ContentApart(h: Host, e: Event)
    ensures IdentityJson(e).Keys !! ContentJson(h, e).Keys
    ensures TimesJson(e).Keys !! ContentJson(h, e).Keys
    ensures MarketJson(e).Keys !! ContentJson(h, e).Keys
  {
  }

  lemma TimesApart(h: Host, e: Event)
    ensures TimesJson(e).Keys !! MarketJson(e).Keys
  {
  }

  lemma EventHas(h: Host, e: Event)
    ensures var f := EventJson(h, e);
            Has(f, IdentityJson(e)) && Has(f, TimesJson(e)) && Has(f, MarketJson(e)) && Has(f, ContentJson(h, e))
  {
    IdentityApart(e);
    MarketApart(e);
    ContentApart(h, e);
    TimesApart(h, e);
    PartsOfUnion(IdentityJson(e), TimesJson(e), MarketJson(e), ContentJson(h, e));
  }

  lemma IdentityFields(f: Fields, h: Host, e: Event)
    requires Has(f, IdentityJson(e))
    ensures Required(f, "schema_version") == Some(Int(e.schemaVersion))
    ensures Required(f, "ingest_sequence") == Some(Int(e.number))
    ensures Required(f, "event_id") == Some(Text(e.eventId))
    ensures Required(f, "source") == Some(Text(SourceText(e.source)))
    ensures Required(f, "stream") == Some(Text(StreamText(e.Stream())))
    ensures Required(f, "instrument") == Some(Text(e.instrument))
  {
    var part := IdentityJson(e);
    assert "schema_version" in part && "ingest_sequence" in part && "event_id" in part;
    assert "source" in part && "stream" in part && "instrument" in part;
  }

  lemma TimesFields(f: Fields, h: Host, e: Event)
    requires Has(f, TimesJson(e))
    ensures Get(f, "source_timestamp_ns") == MaybeInt(e.sourceNs)
    ensures Get(f, "server_timestamp_ns") == MaybeInt(e.serverNs)
    ensures Required(f, "received_wall_timestamp_ns") == Some(Int(e.wallNs))
    ensures Required(f, "received_monotonic_ns") == Some(Int(e.monotonicNs))
    ensures Get(f, "source_sequence") == MaybeText(e.sourceSequence)
  {
    var part := TimesJson(e);
    assert "source_timestamp_ns" in part && "server_timestamp_ns" in part && "source_sequence" in part;
    assert "received_wall_timestamp_ns" in part && "received_monotonic_ns" in part;
  }

  lemma MarketFields(f: Fields, h: Host, e: Event)
    requires Has(f, MarketJson(e))
    ensures Get(f, "timeframe") == MarketJson(e)["timeframe"] && Get(f, "outcome") == MarketJson(e)["outcome"]
    ensures TextAt(f, "market_id") == e.marketId && TextAt(f, "condition_id") == e.conditionId
    ensures TextAt(f, "asset_id") == e.assetId
  {
    var part := MarketJson(e);
    assert "timeframe" in part && "outcome" in part;
    assert "market_id" in part && "condition_id" in part && "asset_id" in part;
  }

  lemma EnumsReadBack(h: Host, f: Fields, e: Event)
    requires Has(f, MarketJson(e))
    ensures MaybeTimeframeAt(h, f, "timeframe") == Some(e.timeframe)
    ensures MaybeOutcomeAt(h, f, "outcome") == Some(e.outcome)
    ensures StreamFrom(StreamText(e.Stream())) == Some(e.Stream()) && SourceFrom(SourceText(e.source)) == Some(e.source)
  {
    MarketFields(f, h, e);
    TextsReadBack(e.source, e.Stream(), BUY, if e.outcome.Some? then e.outcome.value else UP,
                  if e.timeframe.Some? then e.timeframe.value else FIVE_MINUTES, ACTIVE);
  }

  lemma ContentFields(f: Fields, h: Host, e: Event)
    requires Has(f, ContentJson(h, e))
    ensures Required(f, "payload") == Some(Object(PayloadJson(h, e.payload)))
    ensures TextAt(f, "source_session_id") == e.sessionId
  {
    var part := ContentJson(h, e);
    assert "payload" in part && "source_session_id" in part;
  }

  lemma IdentityReadsBack(h: Host, f: Fields, e: Event)
    requires Has(f, IdentityJson(e))
    ensures IdentityFrom(h, f) == Some(Identity(e.number, e.eventId, e.source, e.instrument))
  {
    IdentityFields(f, h, e);
    TextsReadBack(e.source, e.Stream(), BUY, UP, FIVE_MINUTES, ACTIVE);
  }

  lemma TimesReadBack(h: Host, f: Fields, e: Event)
    requires Has(f, TimesJson(e))
    ensures TimesFrom(h, f) == Some(Times(e.sourceNs, e.serverNs, e.wallNs, e.monotonicNs))
    ensures TextAt(f, "source_sequence") == e.sourceSequence
  {
    TimesFields(f, h, e);
  }

  lemma EnvelopeReadsBack(h: Host, f: Fields, e: Event)
    requires Has(f, IdentityJson(e)) && Has(f, TimesJson(e)) && Has(f, MarketJson(e)) && Has(f, ContentJson(h, e))
    ensures EnvelopeFrom(h, f, e.schemaVersion, e.payload) == Some(e)
  {
    IdentityReadsBack(h, f, e);
    TimesReadBack(h, f, e);
    MarketFields(f, h, e);
    ContentFields(f, h, e);
    EnumsReadBack(h, f, e);
  }

  lemma FieldsReadBack(h: Host, f: Fields, e: Event)
    requires Has(f, IdentityJson(e)) && Has(f, TimesJson(e)) && Has(f, MarketJson(e)) && Has(f, ContentJson(h, e))
    requires e.schemaVersion == 2 && PayloadFrom(h, e.Stream(), PayloadJson(h, e.payload)) == Some(e.payload)
    ensures EventFrom(h, f) == Some(e)
  {
    EnvelopeReadsBack(h, f, e);
    IdentityFields(f, h, e);
    ContentFields(f, h, e);
    StreamReadsBack(e.Stream());
  }

  /** Decoding the JSON value of any schema-2 event, of all thirteen kinds, gives back the same event. */
  lemma EventReadsBack(h: Host, e: Event)
    requires Sensible(h) && e.schemaVersion == 2 && ExactPayload(h, e.payload)
    ensures EventFrom(h, EventJson(h, e)) == Some(e)
  {
    EventHas(h, e);
    PayloadReadsBack(h, e.payload);
    FieldsReadBack(h, EventJson(h, e), e);
  }

  // One line of a raw file.

  /** The text layer: one line of bytes for a JSON value. */
  datatype TextLayer = TextLayer(dump: Json -> Bytes, load: Bytes -> Option<Json>)

  /** Loading gives back what was dumped, and compact JSON text holds no newline. */
  ghost predicate Lossless(t: TextLayer) {
    forall j: Json {:trigger t.dump(j)} :: t.load(t.dump(j)) == Some(j) && NEWLINE !in t.dump(j)
  }

  function EncodeLine(h: Host, t: TextLayer, e: Event): Bytes {
    t.dump(Object(EventJson(h, e)))
  }

  function DecodeLine(h: Host, t: TextLayer, line: Bytes): Option<Event> {
    var j :- t.load(line);
    if j.Object? then EventFrom(h, j.fields) else None
  }

  predicate CanStore(h: Host, e: Event) {
    e.schemaVersion == 2 && ExactPayload(h, e.payload)
  }

  /** The codec the raw log is written and replayed with. */
  function JsonLines(h: Host, t: TextLayer): LineCodec {
    LineCodec(e => EncodeLine(h, t, e), line => DecodeLine(h, t, line), e => CanStore(h, e))
  }

  /** It keeps what the log, its recovery and its replay rely on. */
  lemma JsonLinesFaithful(h: Host, t: TextLayer)
    requires Sensible(h) && Lossless(t)
    ensures Faithful(JsonLines(h, t))
  {
    var c := JsonLines(h, t);
    forall e: Event | c.storable(e) ensures c.decode(c.encode(e)) == Some(e) && NEWLINE !in c.encode(e) {
      EventReadsBack(h, e);
    }
  }
}
