/** What the live state says about the events it was made of, event by event (market_data/state.py:258-368). */
module StateHistory {
  import opened Wrappers
  import opened Models
  import opened Rolling
  import opened OrderBook
  import opened LiveState
  import opened StateInvariants

  // The last event of each kind.

  datatype Kind =
    | Chainlink | AggTrade | BookTicker | Depth
    | MarketOf(timeframe: Timeframe) | StatusOf(source: EventSource) | ClobSession

  /** Event `i` is no status, and of the CLOB session then current if it comes from the CLOB. */
  predicate NotStale(events: seq<Event>, i: nat)
    requires i < |events|
  {
    var session := Run(INITIAL, events[..i]).session;
    events[i].source == POLYMARKET_CLOB && session.Some? ==> events[i].sessionId == session
  }

  predicate Concerns(kind: Kind, events: seq<Event>, i: nat)
    requires i < |events|
  {
    var e := events[i].payload;
    match kind
    case Chainlink => e.ChainlinkPrice? && NotStale(events, i)
    case AggTrade => e.BinanceAggTrade? && NotStale(events, i)
    case BookTicker => e.BinanceBookTicker? && NotStale(events, i)
    case Depth => e.BinanceDepth20? && NotStale(events, i)
    case MarketOf(timeframe) => e.MarketWindowState? && e.timeframe == timeframe && NotStale(events, i)
    case StatusOf(source) => e.SourceStatus? && e.source == source
    case ClobSession => e.SourceStatus? && e.source == POLYMARKET_CLOB && e.connected
  }

  ghost predicate LatestAt(kind: Kind, events: seq<Event>, i: nat) {
    && i < |events| && Concerns(kind, events, i)
    && (forall j: nat :: i < j < |events| ==> !Concerns(kind, events, j))
  }

  ghost predicate Never(kind: Kind, events: seq<Event>) {
    forall j: nat :: j < |events| ==> !Concerns(kind, events, j)
  }

  predicate SaysMarket(context: Context, p: Payload)
    requires p.MarketWindowState?
  {
    && context.state == p.state && context.current == p.currentMarket && context.next == p.nextMarket
    && context.expectedTransitionNs == p.expectedTransitionNs && context.lastError == p.lastError
  }

  /** The state holds what `e`, an event of the kind, says. */
  predicate Remembers(kind: Kind, s: State, e: Event) {
    match kind
    case Chainlink => s.chainlink == Some(e)
    case AggTrade => s.aggTrade == Some(e)
    case BookTicker => s.bookTicker == Some(e)
    case Depth => s.depth == Some(e)
    case MarketOf(timeframe) =>
      e.payload.MarketWindowState? && timeframe in s.contexts && SaysMarket(s.contexts[timeframe], e.payload)
    case StatusOf(source) => e.payload.SourceStatus? && (source in s.connected <==> e.payload.connected)
    case ClobSession => e.payload.SourceStatus? && s.session == e.payload.sessionId
  }

  predicate Blank(kind: Kind, s: State) {
    match kind
    case Chainlink => s.chainlink.None?
    case AggTrade => s.aggTrade.None?
    case BookTicker => s.bookTicker.None?
    case Depth => s.depth.None?
    case MarketOf(timeframe) => timeframe !in s.contexts
    case StatusOf(source) => source !in s.connected
    case ClobSession => s.session.None?
  }

  lemma FrontConcerns(kind: Kind, events: seq<Event>, i: nat)
    requires i < |events| - 1
    ensures Concerns(kind, events[..|events| - 1], i) <==> Concerns(kind, events, i)
  {
    assert events[..|events| - 1][..i] == events[..i];
  }

  lemma FrontLatest(kind: Kind, events: seq<Event>, i: nat)
    requires LatestAt(kind, events, i) && i < |events| - 1
    ensures LatestAt(kind, events[..|events| - 1], i)
  {
    var front := events[..|events| - 1];
    FrontConcerns(kind, events, i);
    forall j: nat | i < j < |front| ensures !Concerns(kind, front, j) {
      FrontConcerns(kind, events, j);
    }
  }

  lemma FrontNever(kind: Kind, events: seq<Event>)
    requires Never(kind, events) && events != []
    ensures Never(kind, events[..|events| - 1])
  {
    var front := events[..|events| - 1];
    forall j: nat | j < |front| ensures !Concerns(kind, front, j) {
      FrontConcerns(kind, events, j);
    }
  }

  lemma ApplyFeeds(s: State, e: Event)
    ensures var live, t := !e.payload.SourceStatus? && !StaleSession(s, e), Apply(s, e);
            && t.chainlink == (if live && e.payload.ChainlinkPrice? then Some(e) else s.chainlink)
            && t.aggTrade == (if live && e.payload.BinanceAggTrade? then Some(e) else s.aggTrade)
            && t.bookTicker == (if live && e.payload.BinanceBookTicker? then Some(e) else s.bookTicker)
            && t.depth == (if live && e.payload.BinanceDepth20? then Some(e) else s.depth)
  {
  }

  lemma ApplyContexts(s: State, e: Event, tf: Timeframe)
    ensures var t, p := Apply(s, e), e.payload;
            if p.MarketWindowState? && !StaleSession(s, e) && p.timeframe == tf then
              tf in t.contexts && SaysMarket(t.contexts[tf], p)
            else (tf in t.contexts <==> tf in s.contexts) && (tf in s.contexts ==> t.contexts[tf] == s.contexts[tf])
  {
  }

  lemma ApplySession(s: State, e: Event)
    ensures Apply(s, e).session ==
            if e.payload.SourceStatus? && e.payload.source == POLYMARKET_CLOB && e.payload.connected
            then e.payload.sessionId else s.session
  {
  }

  /** An event of the kind is remembered. */
  lemma {:induction false} StepRemembers(kind: Kind, events: seq<Event>)
    requires events != [] && Concerns(kind, events, |events| - 1)
    ensures Remembers(kind, Run(INITIAL, events), events[|events| - 1])
  {
    var s, e := Run(INITIAL, events[..|events| - 1]), events[|events| - 1];
    match kind {
      case MarketOf(timeframe) => ApplyContexts(s, e, timeframe);
      case StatusOf(source) => ApplyWindows(s, e);
      case ClobSession => ApplySession(s, e);
      case _ => ApplyFeeds(s, e);
    }
  }

  /** Any other event leaves what is remembered. */
  lemma {:induction false} StepLeaves(kind: Kind, events: seq<Event>, x: Event)
    requires events != [] && !Concerns(kind, events, |events| - 1)
    ensures var s, t := Run(INITIAL, events[..|events| - 1]), Run(INITIAL, events);
            (Blank(kind, s) ==> Blank(kind, t)) && (Remembers(kind, s, x) ==> Remembers(kind, t, x))
  {
    var s, e := Run(INITIAL, events[..|events| - 1]), events[|events| - 1];
    match kind {
      case MarketOf(timeframe) => ApplyContexts(s, e, timeframe);
      case StatusOf(source) => ApplyWindows(s, e);
      case ClobSession => ApplySession(s, e);
      case _ => ApplyFeeds(s, e);
    }
  }

  /**
   In every reachable state the Chainlink price, the trade, the book ticker and the depth are the last event of
   their kind that was not stale; a timeframe's market is what its last market state said; a source counts as
   connected exactly as its last status said; and the CLOB session is that of the last CLOB connection. Where
   there was no such event nothing is held.
   */
  lemma {:induction false} StateRemembers(kind: Kind, events: seq<Event>, i: nat)
    ensures LatestAt(kind, events, i) ==> Remembers(kind, Run(INITIAL, events), events[i])
    ensures Never(kind, events) ==> Blank(kind, Run(INITIAL, events))
  {
    if events != [] {
      var front, last := events[..|events| - 1], |events| - 1;
      if Concerns(kind, events, last) {
        StepRemembers(kind, events);
      } else {
        StateRemembers(kind, front, i);
        StepLeaves(kind, events, events[if i < last then i else last]);
        if LatestAt(kind, events, i) {
          FrontLatest(kind, events, i);
          assert front[i] == events[i];
        } else if Never(kind, events) {
          FrontNever(kind, events);
        }
      }
    }
  }

  // Which events reach a book.

  /** The token of a current or next market of some timeframe. */
  predicate IsToken(contexts: map<Timeframe, Context>, id: string) {
    exists tf :: tf in contexts && (IsTokenOf(contexts[tf].current, id) || IsTokenOf(contexts[tf].next, id))
  }

  predicate IsTokenOf(market: Option<MarketWindow>, id: string) {
    market.Some? && id in {market.value.upTokenId, market.value.downTokenId}
  }

  lemma ReferencedMeans(contexts: map<Timeframe, Context>, id: string)
    ensures id in Referenced(contexts) <==> IsToken(contexts, id)
  {
    if tf :| tf in contexts && id in TokensAt(contexts, tf) {
      match tf {
        case FIVE_MINUTES =>
        case FIFTEEN_MINUTES =>
      }
    }
  }

  /** The event names an asset with its market, condition, timeframe and side. */
  predicate NamesBook(e: Event, id: string) {
    e.source == POLYMARKET_CLOB && e.assetId == Some(id) && e.timeframe.Some? && e.outcome.Some?
    && e.marketId.Some? && e.conditionId.Some?
  }

  predicate AgreesWith(e: Event, book: Book) {
    && e.marketId == Some(book.marketId) && e.conditionId == Some(book.conditionId)
    && e.timeframe == Some(book.timeframe) && e.outcome == Some(book.outcome)
  }

  predicate OfBookKind(p: Payload) {
    p.PolymarketBook? || p.PolymarketPriceChange? || p.PolymarketBestBidAsk? || p.PolymarketLastTrade?
    || p.PolymarketTickSize? || p.PolymarketResolved? || p.SnapshotTick?
  }

  /**
   Exactly which events an asset's book takes: those of the current session that name it in full, while some
   market lists it, and that agree with the book already there, if any, on market, condition, timeframe and side.
   */
  lemma AcceptsIff(s: State, e: Event, id: string)
    ensures Accepts(s, e, id) <==>
            && OfBookKind(e.payload) && NamesBook(e, id) && (s.session.Some? ==> e.sessionId == s.session)
            && IsToken(s.contexts, id) && (id in s.books ==> AgreesWith(e, s.books[id]))
  {
    ReferencedMeans(s.contexts, id);
  }

  /** A market state keeps the book of every listed asset as it is, and drops every other. */
  lemma MarketStateKeeps(s: State, e: Event, id: string)
    requires e.payload.MarketWindowState? && !StaleSession(s, e)
    ensures var t := Apply(s, e);
            && (id in t.books <==> id in s.books && IsToken(t.contexts, id))
            && (id in t.books ==> t.books[id] == s.books[id])
  {
    ReferencedMeans(Apply(s, e).contexts, id);
  }

  /** An event that is no market state drops no book. */
  lemma OthersDropNothing(s: State, e: Event, id: string)
    requires !e.payload.MarketWindowState? || StaleSession(s, e)
    ensures id in s.books ==> id in Apply(s, e).books
    ensures id in Apply(s, e).books && id !in s.books ==> Accepts(s, e, id)
  {
    ApplyToOneBook(s, e, id);
  }

  // A book against the events it took.

  /** The events accepted for the asset since its book was entered in the table. */
  function Taken(events: seq<Event>, id: string): seq<Event> {
    if events == [] || id !in Run(INITIAL, events).books then []
    else
      var front, e := events[..|events| - 1], events[|events| - 1];
      Taken(front, id) + if Accepts(Run(INITIAL, front), e, id) then [e] else []
  }

  /** A resolution of the asset: one that lists it, or lists none. */
  predicate ResolvesAsset(e: Event, id: string) {
    e.payload.PolymarketResolved? && (e.payload.affectedAssetIds == [] || id in e.payload.affectedAssetIds)
  }

  ghost predicate LastTradeAt(taken: seq<Event>, k: nat) {
    && k < |taken| && taken[k].payload.PolymarketLastTrade?
    && (forall m :: k < m < |taken| ==> !taken[m].payload.PolymarketLastTrade?)
  }

  ghost predicate LastTradeIs(taken: seq<Event>, held: Option<real>) {
    && (held.None? <==> forall k :: 0 <= k < |taken| ==> !taken[k].payload.PolymarketLastTrade?)
    && (forall k: nat :: LastTradeAt(taken, k) ==> held == Some(taken[k].payload.price))
  }

  ghost predicate TickSizeAt(taken: seq<Event>, k: nat) {
    && k < |taken| && taken[k].payload.PolymarketTickSize?
    && (forall m :: k < m < |taken| ==> !taken[m].payload.PolymarketTickSize?)
  }

  ghost predicate TickSizeIs(taken: seq<Event>, held: Option<real>) {
    && (held.None? <==> forall k :: 0 <= k < |taken| ==> !taken[k].payload.PolymarketTickSize?)
    && (forall k: nat :: TickSizeAt(taken, k) ==> held == Some(taken[k].payload.newTickSize))
  }

  ghost predicate ResolvedIs(taken: seq<Event>, id: string, resolved: bool) {
    resolved <==> exists k :: 0 <= k < |taken| && ResolvesAsset(taken[k], id)
  }

  ghost predicate IdentityIs(taken: seq<Event>, id: string, book: Book) {
    book.assetId == id && forall k :: 0 <= k < |taken| ==> NamesBook(taken[k], id) && AgreesWith(taken[k], book)
  }

  /** What a book says of the events it took. */
  ghost predicate Tells(taken: seq<Event>, id: string, book: Book) {
    && taken != [] && IdentityIs(taken, id, book)
    && book.lastEventNs == taken[|taken| - 1].sourceNs
    && ResolvedIs(taken, id, book.resolved)
    && LastTradeIs(taken, book.lastTrade) && TickSizeIs(taken, book.tickSize)
  }

  lemma StepMarket(book: Book, e: Event)
    ensures var t := BookStep(book, e); t.assetId == book.assetId && t.marketId == book.marketId
  {
  }

  lemma StepCondition(book: Book, e: Event)
    ensures BookStep(book, e).conditionId == book.conditionId
  {
  }

  lemma StepSide(book: Book, e: Event)
    ensures var t := BookStep(book, e); t.timeframe == book.timeframe && t.outcome == book.outcome
  {
  }

  lemma StepResolved(book: Book, e: Event)
    ensures BookStep(book, e).lastEventNs == e.sourceNs
    ensures BookStep(book, e).resolved <==> book.resolved || ResolvesAsset(e, book.assetId)
  {
  }

  lemma StepLastTrade(book: Book, e: Event)
    ensures BookStep(book, e).lastTrade ==
            if e.payload.PolymarketLastTrade? then Some(e.payload.price) else book.lastTrade
  {
  }

  lemma StepTickSize(book: Book, e: Event)
    ensures BookStep(book, e).tickSize ==
            if e.payload.PolymarketTickSize? then Some(e.payload.newTickSize) else book.tickSize
  {
  }

  lemma ResolvedSnoc(taken: seq<Event>, id: string, resolved: bool, e: Event)
    requires ResolvedIs(taken, id, resolved)
    ensures ResolvedIs(taken + [e], id, resolved || ResolvesAsset(e, id))
  {
    var more := taken + [e];
    if k :| 0 <= k < |taken| && ResolvesAsset(taken[k], id) {
      assert ResolvesAsset(more[k], id);
    }
    if k :| 0 <= k < |more| && ResolvesAsset(more[k], id) {
      assert k < |taken| ==> ResolvesAsset(taken[k], id);
    }
    assert more[|taken|] == e;
  }

  lemma LastTradeSnoc(taken: seq<Event>, held: Option<real>, e: Event)
    requires LastTradeIs(taken, held)
    ensures LastTradeIs(taken + [e], if e.payload.PolymarketLastTrade? then Some(e.payload.price) else held)
  {
    var more := taken + [e];
    assert more[|taken|] == e && forall k :: 0 <= k < |taken| ==> more[k] == taken[k];
    forall k: nat | LastTradeAt(more, k) && k < |taken|
      ensures LastTradeAt(taken, k) && !e.payload.PolymarketLastTrade?
    {
    }
  }

  lemma TickSizeSnoc(taken: seq<Event>, held: Option<real>, e: Event)
    requires TickSizeIs(taken, held)
    ensures TickSizeIs(taken + [e], if e.payload.PolymarketTickSize? then Some(e.payload.newTickSize) else held)
  {
    var more := taken + [e];
    assert more[|taken|] == e && forall k :: 0 <= k < |taken| ==> more[k] == taken[k];
    forall k: nat | TickSizeAt(more, k) && k < |taken| ensures TickSizeAt(taken, k) && !e.payload.PolymarketTickSize? {
    }
  }

  lemma TellsMore(taken: seq<Event>, id: string, book: Book, e: Event)
    requires book.assetId == id && NamesBook(e, id) && AgreesWith(e, book)
    requires IdentityIs(taken, id, book) && ResolvedIs(taken, id, book.resolved)
    requires LastTradeIs(taken, book.lastTrade) && TickSizeIs(taken, book.tickSize)
    ensures Tells(taken + [e], id, BookStep(book, e))
  {
    StepMarket(book, e);
    StepCondition(book, e);
    StepSide(book, e);
    StepResolved(book, e);
    StepLastTrade(book, e);
    StepTickSize(book, e);
    ResolvedSnoc(taken, id, book.resolved, e);
    LastTradeSnoc(taken, book.lastTrade, e);
    TickSizeSnoc(taken, book.tickSize, e);
  }

  lemma NewTells(s: State, e: Event, id: string)
    requires Accepts(s, e, id) && id !in s.books
    ensures var book := BookFor(s, e);
            && book.assetId == id && AgreesWith(e, book)
            && IdentityIs([], id, book) && ResolvedIs([], id, book.resolved)
            && LastTradeIs([], book.lastTrade) && TickSizeIs([], book.tickSize)
  {
  }

  /**
   In every reachable state a stored book tells exactly this of the events it has taken since it was entered: it
   carries their market, condition, timeframe and side; it was last touched at the time of the last of them; it is
   resolved if and only if one of them is a resolution that lists its asset or lists none; and its last trade price
   and tick size are those of the last trade and the last tick size change among them.
   */
  lemma {:induction false} BookHistory(events: seq<Event>, id: string)
    requires id in Run(INITIAL, events).books
    ensures Tells(Taken(events, id), id, Run(INITIAL, events).books[id])
  {
    var front, e := events[..|events| - 1], events[|events| - 1];
    var s := Run(INITIAL, front);
    ApplyToOneBook(s, e, id);
    if id in s.books {
      BookHistory(front, id);
      if Accepts(s, e, id) {
        AcceptsIff(s, e, id);
        TellsMore(Taken(front, id), id, s.books[id], e);
      } else {
        assert Taken(front, id) + [] == Taken(front, id);
      }
    } else {
      OthersDropNothing(s, e, id);
      AcceptsIff(s, e, id);
      NewTells(s, e, id);
      assert Taken(front, id) == [];
      TellsMore([], id, BookFor(s, e), e);
    }
  }

  // Exactly when a book is initialised.

  /** A CLOB status that ends the session or brings another. */
  predicate Invalidates(s: State, e: Event) {
    && e.payload.SourceStatus? && e.payload.source == POLYMARKET_CLOB
    && (!e.payload.connected || e.payload.sessionId != s.session)
  }

  lemma InvalidatesAll(s: State, e: Event, id: string)
    requires id in s.books && e.payload.SourceStatus?
    ensures id in Apply(s, e).books
    ensures Apply(s, e).books[id] == if Invalidates(s, e) then Invalidated(s.books[id]) else s.books[id]
  {
  }

  /** Event `i` is a full book the asset took, and since then its book has been neither invalidated nor dropped. */
  ghost predicate StandsSince(events: seq<Event>, i: nat, id: string) {
    && i < |events| && FullBookAt(events, i, id)
    && (forall j: nat :: i < j < |events| ==> Undisturbed(events, j, id))
  }

  predicate Undisturbed(events: seq<Event>, j: nat, id: string)
    requires j < |events|
  {
    !Invalidates(Run(INITIAL, events[..j]), events[j]) && id in Run(INITIAL, events[..j + 1]).books
  }

  lemma StepInitialized(s: State, e: Event, id: string)
    requires !(e.payload.PolymarketBook? && Accepts(s, e, id))
    ensures Initialized(Apply(s, e), id) <==> Initialized(s, id) && !Invalidates(s, e) && id in Apply(s, e).books
  {
    ApplyToOneBook(s, e, id);
    if id in s.books && e.payload.SourceStatus? {
      InvalidatesAll(s, e, id);
    }
    if Accepts(s, e, id) {
      StepKeepsInitialized(BookFor(s, e), e);
    }
    if id in Apply(s, e).books && !Accepts(s, e, id) && !e.payload.SourceStatus? {
      OtherKeepsBook(s, e, id);
    }
  }

  lemma StepKeepsInitialized(book: Book, e: Event)
    ensures BookStep(book, e).initialized <==> book.initialized || e.payload.PolymarketBook?
  {
  }

  lemma FullBookInitializes(s: State, e: Event, id: string)
    requires Accepts(s, e, id) && e.payload.PolymarketBook?
    ensures Initialized(Apply(s, e), id)
    ensures var book := Apply(s, e).books[id];
            && book.divergence == 0 && book.session == e.sessionId
            && book.bids == LevelMap(e.payload.bids) && book.asks == LevelMap(e.payload.asks)
            && (book.coherent <==> Uncrossed(book.bids, book.asks))
  {
    ApplyToOneBook(s, e, id);
  }

  lemma FrontFullBook(events: seq<Event>, i: nat, id: string)
    requires i < |events| - 1
    ensures FullBookAt(events[..|events| - 1], i, id) <==> FullBookAt(events, i, id)
    ensures Undisturbed(events[..|events| - 1], i, id) <==> Undisturbed(events, i, id)
  {
    var front := events[..|events| - 1];
    assert front[..i] == events[..i] && front[..i + 1] == events[..i + 1];
  }

  /** Standing since event `i` is standing since then up to the last event, and undisturbed by that. */
  lemma FrontStands(events: seq<Event>, i: nat, id: string)
    requires events != [] && i < |events| - 1
    ensures StandsSince(events, i, id) <==>
            StandsSince(events[..|events| - 1], i, id) && Undisturbed(events, |events| - 1, id)
  {
    var front := events[..|events| - 1];
    FrontFullBook(events, i, id);
    forall j: nat | i < j < |front| ensures Undisturbed(front, j, id) <==> Undisturbed(events, j, id) {
      FrontFullBook(events, j, id);
    }
  }

  /**
   A book is initialised if and only if a full book was taken for its asset that has stood since: no CLOB status
   ended or changed the session, and no market state dropped the asset.
   */
  lemma {:induction false} InitializedIff(events: seq<Event>, id: string)
    ensures Initialized(Run(INITIAL, events), id) <==> exists i: nat :: StandsSince(events, i, id)
  {
    if events != [] {
      var front, last := events[..|events| - 1], |events| - 1;
      var s, e := Run(INITIAL, front), events[last];
      assert events[..last] == front && events[..last + 1] == events;
      InitializedIff(front, id);
      if FullBookAt(events, last, id) {
        FullBookInitializes(s, e, id);
        assert StandsSince(events, last, id);
      } else {
        StepInitialized(s, e, id);
        if i: nat :| StandsSince(front, i, id) {
          FrontStands(events, i, id);
        }
        if i: nat :| StandsSince(events, i, id) {
          FrontStands(events, i, id);
        }
      }
    }
  }

  /** No CLOB status has invalidated the asset's book since it was entered. */
  function Untouched(events: seq<Event>, id: string): bool {
    if events == [] || id !in Run(INITIAL, events).books then true
    else
      var front, e := events[..|events| - 1], events[|events| - 1];
      Untouched(front, id) && !(id in Run(INITIAL, front).books && Invalidates(Run(INITIAL, front), e))
  }

  lemma StepUninitialized(book: Book, e: Event)
    requires !BookStep(book, e).initialized
    ensures var t := BookStep(book, e); t.coherent == book.coherent && t.session == book.session
  {
  }

  lemma InvalidatedIsBlank(s: State, e: Event, id: string)
    requires id in s.books && Invalidates(s, e)
    ensures var book := Apply(s, e).books[id]; !book.coherent && book.session.None? && book.bids == map[] == book.asks
  {
  }

  /** What the step leaves of the coherence and the session of a book that is not initialised after it. */
  lemma BlankStep(s: State, e: Event, id: string)
    requires id in s.books && id in Apply(s, e).books && !Apply(s, e).books[id].initialized
    ensures var t := Apply(s, e).books[id];
            if Invalidates(s, e) then !t.coherent && t.session.None?
            else !s.books[id].initialized && t.coherent == s.books[id].coherent && t.session == s.books[id].session
  {
    if Invalidates(s, e) {
      InvalidatedIsBlank(s, e, id);
    } else if Accepts(s, e, id) {
      ApplyToOneBook(s, e, id);
      StepKeepsInitialized(s.books[id], e);
      StepUninitialized(s.books[id], e);
    } else if e.payload.SourceStatus? {
      InvalidatesAll(s, e, id);
    } else {
      OtherKeepsBook(s, e, id);
    }
  }

  /**
   A book that is not initialised is coherent, and of the session of the event it was entered with, until a CLOB
   status invalidates it; from then on it is neither coherent nor of any session.
   */
  lemma {:induction false} UninitializedMeans(events: seq<Event>, id: string)
    requires id in Run(INITIAL, events).books && !Run(INITIAL, events).books[id].initialized
    ensures Taken(events, id) != []
    ensures var book := Run(INITIAL, events).books[id];
            && (book.coherent <==> Untouched(events, id))
            && book.session == if Untouched(events, id) then Taken(events, id)[0].sessionId else None
  {
    var front, e := events[..|events| - 1], events[|events| - 1];
    var s := Run(INITIAL, front);
    BookHistory(events, id);
    if id in s.books {
      BookHistory(front, id);
      BlankStep(s, e, id);
      if !s.books[id].initialized {
        UninitializedMeans(front, id);
      }
    } else {
      OthersDropNothing(s, e, id);
      ApplyToOneBook(s, e, id);
      StepUninitialized(BookFor(s, e), e);
      assert Taken(front, id) == [] && [] + [e] == [e];
    }
  }

  // The windows of a state.

  const SECONDS := [1, 5, 30, 60]

  /** The Binance trades that were not stale, with the time each was received. */
  function TradesOf(events: seq<Event>): seq<WindowOp> {
    if events == [] then []
    else
      var last := |events| - 1;
      TradesOf(events[..last]) +
      if Concerns(AggTrade, events, last) then [Trade(RowOf(events[last].wallNs, events[last].payload))] else []
  }

  lemma {:induction false} RunWindowSnoc(seconds: int, ops: seq<WindowOp>, row: Row)
    ensures RunWindow(seconds, ops + [Trade(row)]) == Add(RunWindow(seconds, ops), row)
  {
    assert (ops + [Trade(row)])[..|ops|] == ops;
  }

  /** The four windows of a state are those of 1, 5, 30 and 60 seconds over its trades. */
  lemma {:induction false} WindowsAreHistory(events: seq<Event>, i: nat)
    requires i < 4
    ensures |Run(INITIAL, events).windows| == 4
    ensures Run(INITIAL, events).windows[i] == RunWindow(SECONDS[i], TradesOf(events))
  {
    if events != [] {
      var front, last := events[..|events| - 1], |events| - 1;
      WindowsAreHistory(front, i);
      ApplyWindows(Run(INITIAL, front), events[last]);
      if Concerns(AggTrade, events, last) {
        RunWindowSnoc(SECONDS[i], TradesOf(front), RowOf(events[last].wallNs, events[last].payload));
      } else {
        assert TradesOf(front) + [] == TradesOf(front);
      }
    }
  }

  // The counters.

  /** Event `i` is of the CLOB, no status, and of another session than the one then current. */
  predicate StaleAt(events: seq<Event>, i: nat)
    requires i < |events|
  {
    !events[i].payload.SourceStatus? && !NotStale(events, i)
  }

  /** Event `i` is a price change accepted for an asset whose book is not initialised. */
  predicate EarlyAt(events: seq<Event>, i: nat)
    requires i < |events|
  {
    var s, e := Run(INITIAL, events[..i]), events[i];
    && e.payload.PolymarketPriceChange? && e.assetId.Some?
    && Accepts(s, e, e.assetId.value) && !Initialized(s, e.assetId.value)
  }

  function StaleCount(events: seq<Event>): nat {
    if events == [] then 0
    else StaleCount(events[..|events| - 1]) + if StaleAt(events, |events| - 1) then 1 else 0
  }

  function EarlyCount(events: seq<Event>): nat {
    if events == [] then 0
    else EarlyCount(events[..|events| - 1]) + if EarlyAt(events, |events| - 1) then 1 else 0
  }

  lemma StepStale(s: State, e: Event)
    ensures Apply(s, e).staleSessions ==
            s.staleSessions + if !e.payload.SourceStatus? && StaleSession(s, e) then 1 else 0
  {
  }

  lemma StepEarly(s: State, e: Event)
    ensures Apply(s, e).earlyDeltas == s.earlyDeltas +
            if e.payload.PolymarketPriceChange? && e.assetId.Some? && Accepts(s, e, e.assetId.value)
               && !Initialized(s, e.assetId.value) then 1 else 0
  {
  }

  /** The two counters of a state are the numbers of stale events and of price changes before a full book. */
  lemma {:induction false} CountersMean(events: seq<Event>)
    ensures Run(INITIAL, events).staleSessions == StaleCount(events)
    ensures Run(INITIAL, events).earlyDeltas == EarlyCount(events)
  {
    if events != [] {
      var front := events[..|events| - 1];
      var s, e := Run(INITIAL, front), events[|front|];
      CountersMean(front);
      assert Run(INITIAL, events) == Apply(s, e);
      StepStale(s, e);
      StepEarly(s, e);
    }
  }
}
