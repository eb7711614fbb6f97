/** The live state as a value, and what one event does to it (market_data/state.py:126-368). */
module LiveState {
  import opened Wrappers
  import opened Models
  import opened Rolling
  import opened OrderBook

  datatype Context = Context(
    state: DiscoveryState, current: Option<MarketWindow>, next: Option<MarketWindow>,
    expectedTransitionNs: Option<int>, lastError: Option<string>)

  datatype State = State(
    chainlink: Option<Event>, aggTrade: Option<Event>, bookTicker: Option<Event>, depth: Option<Event>,
    windows: seq<Window>, contexts: map<Timeframe, Context>, books: map<string, Book>,
    session: Option<string>, staleSessions: nat, earlyDeltas: nat, connected: set<EventSource>)

  function NewWindows(): seq<Window> {
    [Window(1, [], ZERO), Window(5, [], ZERO), Window(30, [], ZERO), Window(60, [], ZERO)]
  }

  const INITIAL := State(None, None, None, None, NewWindows(), map[], map[], None, 0, 0, {})

  // Which assets are referenced.

  function TokensOf(market: Option<MarketWindow>): set<string> {
    if market.None? then {} else {market.value.upTokenId, market.value.downTokenId}
  }

  function TokensAt(contexts: map<Timeframe, Context>, tf: Timeframe): set<string> {
    if tf in contexts then TokensOf(contexts[tf].current) + TokensOf(contexts[tf].next) else {}
  }

  function Referenced(contexts: map<Timeframe, Context>): set<string> {
    TokensAt(contexts, FIVE_MINUTES) + TokensAt(contexts, FIFTEEN_MINUTES)
  }

  // Steps.

  function MapBooks(books: map<string, Book>): map<string, Book> {
    map id | id in books :: Invalidated(books[id])
  }

  function Prune(books: map<string, Book>, keep: set<string>): map<string, Book> {
    map id | id in books && id in keep :: books[id]
  }

  function WithConnection(s: State, source: EventSource, up: bool): State {
    s.(connected := if up then s.connected + {source} else s.connected - {source})
  }

  /** A source's connection status; a CLOB session that ends or changes invalidates every book. */
  function ApplyStatus(s: State, source: EventSource, connected: bool, sessionId: Option<string>): State {
    var s1 := WithConnection(s, source, connected);
    if source != POLYMARKET_CLOB then s1
    else s1.(books := if !connected || sessionId != s.session then MapBooks(s.books) else s.books,
             session := if connected then sessionId else s.session)
  }

  predicate StaleSession(s: State, e: Event) {
    e.source == POLYMARKET_CLOB && s.session.Some? && e.sessionId != s.session
  }

  function ApplyMarketState(s: State, payload: Payload): State
    requires payload.MarketWindowState?
  {
    var contexts := s.contexts[payload.timeframe :=
      Context(payload.state, payload.currentMarket, payload.nextMarket, payload.expectedTransitionNs,
              payload.lastError)];
    s.(contexts := contexts, books := Prune(s.books, Referenced(contexts)))
  }

  function AddToAll(windows: seq<Window>, row: Row): (r: seq<Window>)
    ensures |r| == |windows|
    ensures forall i :: 0 <= i < |r| ==> r[i] == Add(windows[i], row)
  {
    if windows == [] then [] else [Add(windows[0], row)] + AddToAll(windows[1..], row)
  }

  /** Whether the event names a referenced asset in full. */
  predicate ForBook(contexts: map<Timeframe, Context>, e: Event) {
    && e.source == POLYMARKET_CLOB && e.assetId.Some? && e.timeframe.Some? && e.outcome.Some?
    && e.marketId.Some? && e.conditionId.Some? && e.assetId.value in Referenced(contexts)
  }

  function NewBook(e: Event): Book
    requires e.assetId.Some? && e.timeframe.Some? && e.outcome.Some? && e.marketId.Some? && e.conditionId.Some?
  {
    Book(e.assetId.value, e.marketId.value, e.conditionId.value, e.timeframe.value, e.outcome.value,
         e.sessionId, map[], map[], None, None, false, true, false, 0, None)
  }

  predicate SameIdentity(book: Book, e: Event) {
    && e.marketId == Some(book.marketId) && e.conditionId == Some(book.conditionId)
    && e.timeframe == Some(book.timeframe) && e.outcome == Some(book.outcome)
  }

  /** The book an event is for: the stored one, or a new one. */
  function BookFor(s: State, e: Event): Book
    requires ForBook(s.contexts, e)
  {
    if e.assetId.value in s.books then s.books[e.assetId.value] else NewBook(e)
  }

  function ApplyToBook(s: State, e: Event): State {
    if !ForBook(s.contexts, e) || !SameIdentity(BookFor(s, e), e) then s
    else
      var book := BookFor(s, e);
      s.(books := s.books[e.assetId.value := BookStep(book, e)],
         earlyDeltas := if e.payload.PolymarketPriceChange? && !book.initialized then s.earlyDeltas + 1
                        else s.earlyDeltas)
  }

  /** `StateStore.apply`. */
  function Apply(s: State, e: Event): State {
    if e.payload.SourceStatus? then ApplyStatus(s, e.payload.source, e.payload.connected, e.payload.sessionId)
    else if StaleSession(s, e) then s.(staleSessions := s.staleSessions + 1)
    else ApplyCurrent(s, e)
  }

  /** The part of `apply` that an event which is neither a status nor stale goes through. */
  function ApplyCurrent(s: State, e: Event): State {
    if e.payload.MarketWindowState? then ApplyMarketState(s, e.payload)
    else if e.payload.ChainlinkPrice? then s.(chainlink := Some(e))
    else if e.payload.BinanceAggTrade? then
      s.(aggTrade := Some(e), windows := AddToAll(s.windows, RowOf(e.wallNs, e.payload)))
    else if e.payload.BinanceBookTicker? then s.(bookTicker := Some(e))
    else if e.payload.BinanceDepth20? then s.(depth := Some(e))
    else ApplyToBook(s, e)
  }

  function Run(s: State, events: seq<Event>): State {
    if events == [] then s else Apply(Run(s, events[..|events| - 1]), events[|events| - 1])
  }
}
