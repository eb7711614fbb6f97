/** What holds of every reachable live state, and what a stored book means in terms of the events. */
module StateInvariants {
  import opened Wrappers
  import opened Models
  import opened Rolling
  import opened OrderBook
  import opened LiveState

  // What one event does to one book.

  /** The event reaches a book's own step: current, for a referenced asset, and of the book's identity. */
  predicate Accepts(s: State, e: Event, id: string) {
    && !e.payload.SourceStatus? && !StaleSession(s, e)
    && !e.payload.MarketWindowState? && !e.payload.ChainlinkPrice? && !e.payload.BinanceAggTrade?
    && !e.payload.BinanceBookTicker? && !e.payload.BinanceDepth20?
    && ForBook(s.contexts, e) && SameIdentity(BookFor(s, e), e) && e.assetId == Some(id)
  }

  lemma ApplyToOneBook(s: State, e: Event, id: string)
    ensures Accepts(s, e, id) ==>
              id in Apply(s, e).books && Apply(s, e).books[id] == BookStep(BookFor(s, e), e)
    ensures !Accepts(s, e, id) && id in Apply(s, e).books ==>
              id in s.books &&
              (Apply(s, e).books[id] == s.books[id] || Apply(s, e).books[id] == Invalidated(s.books[id]))
  {
  }

  // What one event does to the windows and flags.

  /** The windows change only with a Binance trade. */
  function WindowsAfter(s: State, e: Event): seq<Window> {
    if !StaleSession(s, e) && e.payload.BinanceAggTrade? then AddToAll(s.windows, RowOf(e.wallNs, e.payload))
    else s.windows
  }

  function FlagsAfter(connected: set<EventSource>, e: Event): set<EventSource> {
    if !e.payload.SourceStatus? then connected
    else if e.payload.connected then connected + {e.payload.source}
    else connected - {e.payload.source}
  }

  lemma BookApart(s: State, e: Event)
    ensures ApplyToBook(s, e).windows == s.windows && ApplyToBook(s, e).connected == s.connected
  {
  }

  lemma CurrentApart(s: State, e: Event)
    ensures ApplyCurrent(s, e).connected == s.connected
    ensures ApplyCurrent(s, e).windows ==
            if e.payload.BinanceAggTrade? then AddToAll(s.windows, RowOf(e.wallNs, e.payload)) else s.windows
  {
    BookApart(s, e);
  }

  lemma StatusApart(s: State, source: EventSource, up: bool, sessionId: Option<string>)
    ensures ApplyStatus(s, source, up, sessionId).windows == s.windows
    ensures ApplyStatus(s, source, up, sessionId).connected ==
            if up then s.connected + {source} else s.connected - {source}
  {
  }

  lemma ApplyWindows(s: State, e: Event)
    ensures Apply(s, e).windows == WindowsAfter(s, e)
    ensures Apply(s, e).connected == FlagsAfter(s.connected, e)
  {
    if e.payload.SourceStatus? {
      StatusApart(s, e.payload.source, e.payload.connected, e.payload.sessionId);
    } else {
      CurrentApart(s, e);
    }
  }

  // The invariant.

  predicate BookFits(s: State, id: string)
    requires id in s.books
  {
    var book := s.books[id];
    && book.assetId == id && id in Referenced(s.contexts) && Sound(book)
    && (s.session.Some? && book.initialized ==> book.session == s.session)
  }

  ghost predicate ExactWindows(windows: seq<Window>) {
    |windows| == 4 && forall i :: 0 <= i < 4 ==> Exact(windows[i])
  }

  ghost predicate Inv(s: State) {
    ExactWindows(s.windows) && (forall id :: id in s.books ==> BookFits(s, id))
  }

  lemma StatusKeepsBook(s: State, e: Event, id: string)
    requires e.payload.SourceStatus? && id in s.books && BookFits(s, id)
    ensures id in Apply(s, e).books && BookFits(Apply(s, e), id)
  {
    StepKeepsSound(s.books[id], e);
  }

  lemma StepKeepsAsset(book: Book, e: Event)
    ensures BookStep(book, e).assetId == book.assetId
  {
  }

  /** A step keeps a book's session, unless it is a full book, which brings its own. */
  lemma StepSession(book: Book, e: Event)
    ensures e.payload.PolymarketBook? ==> BookStep(book, e).session == e.sessionId
    ensures !e.payload.PolymarketBook? ==>
              BookStep(book, e).initialized == book.initialized && BookStep(book, e).session == book.session
  {
  }

  lemma AcceptedKeepsRest(s: State, e: Event, id: string)
    requires Accepts(s, e, id)
    ensures Apply(s, e).contexts == s.contexts && Apply(s, e).session == s.session
  {
  }

  lemma BookForFits(s: State, e: Event, id: string)
    requires Accepts(s, e, id) && (id in s.books ==> BookFits(s, id))
    ensures var book := BookFor(s, e);
            && book.assetId == id && Sound(book) && id in Referenced(s.contexts)
            && (s.session.Some? && book.initialized ==> book.session == s.session)
            && (s.session.Some? ==> e.sessionId == s.session)
  {
  }

  lemma AcceptedFits(s: State, e: Event, id: string)
    requires Accepts(s, e, id) && (id in s.books ==> BookFits(s, id))
    ensures id in Apply(s, e).books && BookFits(Apply(s, e), id)
  {
    ApplyToOneBook(s, e, id);
    BookForFits(s, e, id);
    AcceptedKeepsRest(s, e, id);
    var book := BookFor(s, e);
    StepKeepsSound(book, e);
    StepSession(book, e);
    StepKeepsAsset(book, e);
  }

  lemma MarketKeepsBook(s: State, payload: Payload, id: string)
    requires payload.MarketWindowState? && id in ApplyMarketState(s, payload).books
    ensures var t := ApplyMarketState(s, payload);
            id in s.books && t.books[id] == s.books[id] && t.session == s.session && id in Referenced(t.contexts)
  {
  }

  /** Books are only left alone by other events, and only unreferenced ones are dropped. */
  lemma OtherKeepsBook(s: State, e: Event, id: string)
    requires !Accepts(s, e, id) && !e.payload.SourceStatus? && id in Apply(s, e).books
    ensures id in s.books && Apply(s, e).books[id] == s.books[id] && Apply(s, e).session == s.session
    ensures id in Referenced(s.contexts) ==> id in Referenced(Apply(s, e).contexts)
  {
    if e.payload.MarketWindowState? && !StaleSession(s, e) {
      MarketKeepsBook(s, e.payload, id);
    }
  }

  lemma ApplyKeepsBook(s: State, e: Event, id: string)
    requires id in s.books ==> BookFits(s, id)
    requires id in Apply(s, e).books
    ensures BookFits(Apply(s, e), id)
  {
    if e.payload.SourceStatus? {
      StatusKeepsBook(s, e, id);
    } else if Accepts(s, e, id) {
      AcceptedFits(s, e, id);
    } else {
      OtherKeepsBook(s, e, id);
    }
  }

  lemma {:induction false} AddKeepsExact(windows: seq<Window>, row: Row)
    requires ExactWindows(windows)
    ensures ExactWindows(AddToAll(windows, row))
  {
  }

  lemma ApplyKeepsExact(s: State, e: Event)
    requires ExactWindows(s.windows)
    ensures ExactWindows(Apply(s, e).windows)
  {
    ApplyWindows(s, e);
    if e.payload.BinanceAggTrade? {
      AddKeepsExact(s.windows, RowOf(e.wallNs, e.payload));
    }
  }

  lemma ApplyKeepsInv(s: State, e: Event)
    requires Inv(s)
    ensures Inv(Apply(s, e))
  {
    ApplyKeepsExact(s, e);
    forall id | id in Apply(s, e).books ensures BookFits(Apply(s, e), id) {
      ApplyKeepsBook(s, e, id);
    }
  }

  /**
   In every reachable state a stored book is under its own asset, referenced by some market, sound,
   and, when a CLOB session is current and the book initialised, of that session.
   */
  lemma {:induction false} ReachableInv(events: seq<Event>)
    ensures Inv(Run(INITIAL, events))
  {
    if events != [] {
      ReachableInv(events[..|events| - 1]);
      ApplyKeepsInv(Run(INITIAL, events[..|events| - 1]), events[|events| - 1]);
    }
  }

  lemma AtMostTwo(a: string, b: string)
    ensures |{a, b}| <= 2
  {
    assert a != b ==> {a, b} - {a} == {b};
  }

  lemma UnionSize(a: set<string>, b: set<string>)
    ensures |a + b| <= |a| + |b|
  {
    assert a + b == a + (b - a);
    assert |b - a| <= |b| by {
      SubsetSize(b - a, b);
    }
  }

  lemma {:induction false} SubsetSize(a: set<string>, b: set<string>)
    requires a <= b
    ensures |a| <= |b|
  {
    if a != {} {
      var x := Pick(a);
      SubsetSize(a - {x}, b - {x});
    }
  }

  lemma TokensSize(market: Option<MarketWindow>)
    ensures |TokensOf(market)| <= 2
  {
    if market.Some? {
      AtMostTwo(market.value.upTokenId, market.value.downTokenId);
    }
  }

  lemma TokensAtSize(contexts: map<Timeframe, Context>, tf: Timeframe)
    ensures |TokensAt(contexts, tf)| <= 4
  {
    if tf in contexts {
      TokensSize(contexts[tf].current);
      TokensSize(contexts[tf].next);
      UnionSize(TokensOf(contexts[tf].current), TokensOf(contexts[tf].next));
    }
  }

  /** Whatever events arrive, at most eight books are ever stored. */
  lemma {:induction false} AtMostEightBooks(events: seq<Event>)
    ensures |Run(INITIAL, events).books| <= 8
  {
    var s := Run(INITIAL, events);
    ReachableInv(events);
    assert forall id :: id in s.books.Keys ==> BookFits(s, id);
    TokensAtSize(s.contexts, FIVE_MINUTES);
    TokensAtSize(s.contexts, FIFTEEN_MINUTES);
    UnionSize(TokensAt(s.contexts, FIVE_MINUTES), TokensAt(s.contexts, FIFTEEN_MINUTES));
    SubsetSize(s.books.Keys, Referenced(s.contexts));
  }

  /** A market state event keeps the book of every asset it still references, so next becomes current unchanged. */
  lemma HandOffKeepsBooks(s: State, e: Event, market: MarketWindow, id: string)
    requires e.payload.MarketWindowState? && !StaleSession(s, e)
    requires e.payload.timeframe in s.contexts && s.contexts[e.payload.timeframe].next == Some(market)
    requires e.payload.currentMarket == Some(market)
    requires id in {market.upTokenId, market.downTokenId}
    ensures Apply(s, e).contexts[e.payload.timeframe].current == Some(market)
    ensures id in Apply(s, e).books <==> id in s.books
    ensures id in s.books ==> Apply(s, e).books[id] == s.books[id]
  {
    var contexts := Apply(s, e).contexts;
    assert id in TokensAt(contexts, e.payload.timeframe);
    match e.payload.timeframe {
      case FIVE_MINUTES => assert id in Referenced(contexts);
      case FIFTEEN_MINUTES => assert id in Referenced(contexts);
    }
  }

  // Positive levels.

  ghost predicate AllBooksPositive(s: State) {
    forall id :: id in s.books ==> Positive(s.books[id])
  }

  /** When every event carries what the parser guarantees, every stored price and quantity is positive. */
  lemma {:induction false} ReachablePositive(events: seq<Event>)
    requires forall i :: 0 <= i < |events| ==> PositiveLevels(events[i])
    ensures AllBooksPositive(Run(INITIAL, events))
  {
    if events != [] {
      var s, e := Run(INITIAL, events[..|events| - 1]), events[|events| - 1];
      ReachablePositive(events[..|events| - 1]);
      forall id | id in Apply(s, e).books ensures Positive(Apply(s, e).books[id]) {
        ApplyToOneBook(s, e, id);
        StepKeepsPositive(if Accepts(s, e, id) then BookFor(s, e) else s.books[id], e);
      }
    }
  }

  // A book against the history of events.

  /** Event `i` is a full book accepted for the asset. */
  predicate FullBookAt(events: seq<Event>, i: nat, id: string)
    requires i < |events|
  {
    events[i].payload.PolymarketBook? && Accepts(Run(INITIAL, events[..i]), events[i], id)
  }

  /** The price changes accepted for the asset from event `from` on, in order. */
  function ChangesFrom(events: seq<Event>, from: nat, id: string): seq<Event> {
    if |events| <= from then []
    else
      var front, e := events[..|events| - 1], events[|events| - 1];
      ChangesFrom(front, from, id) +
      if e.payload.PolymarketPriceChange? && Accepts(Run(INITIAL, front), e, id) then [e] else []
  }

  datatype Sides = Sides(bids: Side, asks: Side)

  function ChangeSides(sides: Sides, change: Payload): Sides
    requires change.PolymarketPriceChange?
  {
    if change.side == "BUY" then sides.(bids := SetLevel(sides.bids, change.price, change.quantity))
    else sides.(asks := SetLevel(sides.asks, change.price, change.quantity))
  }

  /** The levels of a full book after a list of price changes. */
  function Folded(sides: Sides, changes: seq<Event>): Sides {
    if changes == [] then sides
    else
      var e := changes[|changes| - 1];
      var before := Folded(sides, changes[..|changes| - 1]);
      if e.payload.PolymarketPriceChange? then ChangeSides(before, e.payload) else before
  }

  predicate Initialized(s: State, id: string) {
    id in s.books && s.books[id].initialized
  }

  /** The book of `id` is event `i`'s full book with the price changes accepted since. */
  ghost predicate IsFoldFrom(events: seq<Event>, i: nat, id: string) {
    var s := Run(INITIAL, events);
    && i < |events| && FullBookAt(events, i, id) && id in s.books
    && Sides(s.books[id].bids, s.books[id].asks) ==
       Folded(Sides(LevelMap(events[i].payload.bids), LevelMap(events[i].payload.asks)),
              ChangesFrom(events, i + 1, id))
  }

  lemma {:induction false} FoldSnoc(sides: Sides, changes: seq<Event>, e: Event)
    requires e.payload.PolymarketPriceChange?
    ensures Folded(sides, changes + [e]) == ChangeSides(Folded(sides, changes), e.payload)
  {
    assert (changes + [e])[..|changes|] == changes;
  }

  lemma StepSides(book: Book, e: Event)
    requires BookStep(book, e).initialized && !e.payload.PolymarketBook?
    ensures book.initialized
    ensures var next := BookStep(book, e);
            Sides(next.bids, next.asks) ==
            if e.payload.PolymarketPriceChange? then ChangeSides(Sides(book.bids, book.asks), e.payload)
            else Sides(book.bids, book.asks)
  {
  }

  /** What the last event did to the sides of a book that is initialised after it. */
  lemma SidesAfter(s: State, e: Event, id: string)
    requires Initialized(Apply(s, e), id)
    requires !(e.payload.PolymarketBook? && Accepts(s, e, id))
    ensures Initialized(s, id)
    ensures var was, now := s.books[id], Apply(s, e).books[id];
            Sides(now.bids, now.asks) ==
            if e.payload.PolymarketPriceChange? && Accepts(s, e, id)
            then ChangeSides(Sides(was.bids, was.asks), e.payload)
            else Sides(was.bids, was.asks)
  {
    ApplyToOneBook(s, e, id);
    if Accepts(s, e, id) {
      StepSides(BookFor(s, e), e);
    }
  }

  lemma ChangesSnoc(events: seq<Event>, from: nat, id: string)
    requires from < |events|
    ensures var front, e := events[..|events| - 1], events[|events| - 1];
            ChangesFrom(events, from, id) == ChangesFrom(front, from, id) +
            if e.payload.PolymarketPriceChange? && Accepts(Run(INITIAL, front), e, id) then [e] else []
  {
  }

  lemma {:induction false} ExtendSides(s: State, e: Event, id: string, base: Sides, changes: seq<Event>)
    requires Initialized(Apply(s, e), id) && !(e.payload.PolymarketBook? && Accepts(s, e, id))
    requires Initialized(s, id) ==> Sides(s.books[id].bids, s.books[id].asks) == Folded(base, changes)
    ensures Sides(Apply(s, e).books[id].bids, Apply(s, e).books[id].asks) ==
            Folded(base, changes + if e.payload.PolymarketPriceChange? && Accepts(s, e, id) then [e] else [])
  {
    SidesAfter(s, e, id);
    if e.payload.PolymarketPriceChange? && Accepts(s, e, id) {
      FoldSnoc(base, changes, e);
    } else {
      assert changes + [] == changes;
    }
  }

  lemma {:induction false} ExtendFold(events: seq<Event>, i: nat, id: string)
    requires events != [] && IsFoldFrom(events[..|events| - 1], i, id)
    requires Initialized(Run(INITIAL, events), id) && !FullBookAt(events, |events| - 1, id)
    ensures IsFoldFrom(events, i, id)
  {
    var front, e := events[..|events| - 1], events[|events| - 1];
    assert front[..i] == events[..i] && front[i] == events[i];
    ChangesSnoc(events, i + 1, id);
    ExtendSides(Run(INITIAL, front), e, id, Sides(LevelMap(events[i].payload.bids), LevelMap(events[i].payload.asks)),
                ChangesFrom(front, i + 1, id));
  }

  /**
   In every reachable state an initialised book is the last full book accepted for its asset with
   the price changes accepted since, one after the other.
   */
  lemma {:induction false} BookIsFold(events: seq<Event>, id: string) returns (i: nat)
    requires Initialized(Run(INITIAL, events), id)
    ensures IsFoldFrom(events, i, id)
    ensures forall j :: i < j < |events| ==> !FullBookAt(events, j, id)
  {
    var front := events[..|events| - 1];
    if FullBookAt(events, |events| - 1, id) {
      i := |events| - 1;
      ApplyToOneBook(Run(INITIAL, front), events[i], id);
      assert ChangesFrom(events, i + 1, id) == [];
    } else {
      SidesAfter(Run(INITIAL, front), events[|events| - 1], id);
      i := BookIsFold(front, id);
      ExtendFold(events, i, id);
      forall j | i < j < |events| ensures !FullBookAt(events, j, id) {
        if j < |front| {
          assert front[..j] == events[..j] && !FullBookAt(front, j, id);
        }
      }
    }
  }

  /** The sides of event `i`'s full book with the price changes accepted since. */
  function FoldedSince(events: seq<Event>, i: nat, id: string): Sides
    requires i < |events| && events[i].payload.PolymarketBook?
  {
    Folded(Sides(LevelMap(events[i].payload.bids), LevelMap(events[i].payload.asks)), ChangesFrom(events, i + 1, id))
  }

  /**
   What is published of an initialised book: the 20 best levels, in strict order, of its last accepted
   full book with the price changes since, and as best bid and ask the highest bid and lowest ask of
   that. While it is called coherent, the best bid is below the best ask.
   */
  lemma {:induction false} PublishedBook(events: seq<Event>, id: string) returns (i: nat)
    requires Initialized(Run(INITIAL, events), id)
    ensures i < |events| && FullBookAt(events, i, id)
    ensures forall j :: i < j < |events| ==> !FullBookAt(events, j, id)
    ensures var folded, shown := FoldedSince(events, i, id), ViewOf(Run(INITIAL, events).books[id]);
            && BestLevels(folded.bids, shown.bids, (a, b) => a > b)
            && BestLevels(folded.asks, shown.asks, (a, b) => a < b)
            && shown.bestBid == BestBid(folded.bids) && shown.bestAsk == BestAsk(folded.asks)
            && (shown.coherent ==> Uncrossed(folded.bids, folded.asks))
  {
    i := BookIsFold(events, id);
    ViewIsBest(Run(INITIAL, events).books[id]);
    ReachableInv(events);
    assert BookFits(Run(INITIAL, events), id);
  }

  // Divergence.

  /** The asset has no book that strategy may use. */
  predicate Unusable(s: State, id: string) {
    id !in s.books || !s.books[id].initialized || !s.books[id].coherent
  }

  /** The event recomputes whether the book is coherent, whatever its divergence count. */
  predicate Recomputes(s: State, e: Event, id: string) {
    Accepts(s, e, id) && (e.payload.PolymarketBook? || e.payload.PolymarketPriceChange?)
  }

  predicate Mismatch(s: State, e: Event, id: string) {
    && Accepts(s, e, id) && e.payload.PolymarketBestBidAsk? && Initialized(s, id)
    && !Matches(s.books[id], e.payload.bestBid, e.payload.bestAsk)
  }

  predicate Agreement(s: State, e: Event, id: string) {
    && Accepts(s, e, id) && e.payload.PolymarketBestBidAsk? && Initialized(s, id)
    && Matches(s.books[id], e.payload.bestBid, e.payload.bestAsk)
  }

  function Mismatches(s: State, events: seq<Event>, id: string): nat {
    if events == [] then 0
    else
      var front := events[..|events| - 1];
      Mismatches(s, front, id) + if Mismatch(Run(s, front), events[|events| - 1], id) then 1 else 0
  }

  /** The divergence count starts again: a full book, or an agreement while the book is coherent. */
  predicate Restarts(s: State, e: Event, id: string) {
    || (Accepts(s, e, id) && e.payload.PolymarketBook?)
    || (Agreement(s, e, id) && s.books[id].coherent)
  }

  ghost predicate NeverRestarts(s: State, events: seq<Event>, id: string) {
    forall i :: 0 <= i < |events| ==> !Restarts(Run(s, events[..i]), events[i], id)
  }

  function DivergenceOf(s: State, id: string): nat {
    if id in s.books then s.books[id].divergence else 0
  }

  lemma StepUnusable(book: Book, e: Event)
    requires !book.initialized || !book.coherent
    requires !e.payload.PolymarketBook? && !e.payload.PolymarketPriceChange?
    ensures !BookStep(book, e).initialized || !BookStep(book, e).coherent
  {
  }

  lemma UnusableStep(s: State, e: Event, id: string)
    requires Unusable(s, id) && !Recomputes(s, e, id)
    ensures Unusable(Apply(s, e), id)
  {
    ApplyToOneBook(s, e, id);
    if Accepts(s, e, id) {
      StepUnusable(BookFor(s, e), e);
    }
  }

  lemma StepDivergence(book: Book, e: Event)
    requires BookStep(book, e).initialized && !e.payload.PolymarketBook?
    requires !(book.coherent && e.payload.PolymarketBestBidAsk? && Matches(book, e.payload.bestBid, e.payload.bestAsk))
    ensures book.initialized
    ensures BookStep(book, e).divergence == book.divergence +
            if e.payload.PolymarketBestBidAsk? && !Matches(book, e.payload.bestBid, e.payload.bestAsk) then 1 else 0
  {
  }

  /** One event that does not restart the count adds one to it exactly when it is a mismatch. */
  lemma DivergenceStep(s: State, e: Event, id: string)
    requires Initialized(Apply(s, e), id) && !Restarts(s, e, id)
    ensures Initialized(s, id)
    ensures DivergenceOf(Apply(s, e), id) == DivergenceOf(s, id) + if Mismatch(s, e, id) then 1 else 0
  {
    ApplyToOneBook(s, e, id);
    if Accepts(s, e, id) {
      StepDivergence(BookFor(s, e), e);
    }
  }

  /** Whatever happens in between, price changes included, the count grows by exactly the mismatches. */
  lemma {:induction false} DivergenceCounts(s: State, events: seq<Event>, id: string)
    requires NeverRestarts(s, events, id) && Initialized(Run(s, events), id)
    ensures Initialized(s, id)
    ensures DivergenceOf(Run(s, events), id) == DivergenceOf(s, id) + Mismatches(s, events, id)
  {
    if events != [] {
      var front, e := events[..|events| - 1], events[|events| - 1];
      assert forall i :: 0 <= i < |front| ==> front[..i] == events[..i];
      assert events[..|front|] == front;
      DivergenceStep(Run(s, front), e, id);
      DivergenceCounts(s, front, id);
    }
  }

  /** A mismatch leaves the book unusable exactly when it makes three or more, or the book was so already. */
  lemma MismatchLocksIff(s: State, e: Event, id: string)
    requires Mismatch(s, e, id)
    ensures Unusable(Apply(s, e), id) <==> DivergenceOf(s, id) + 1 >= 3 || Unusable(s, id)
  {
    ApplyToOneBook(s, e, id);
  }

  lemma {:induction false} CountedMismatchLocks(s: State, events: seq<Event>, e: Event, id: string)
    requires NeverRestarts(s, events, id) && Mismatch(Run(s, events), e, id)
    requires DivergenceOf(s, id) + Mismatches(s, events, id) + 1 >= 3
    ensures Unusable(Apply(Run(s, events), e), id)
  {
    DivergenceCounts(s, events, id);
    MismatchLocksIff(Run(s, events), e, id);
  }

  /** The last event leaves an unusable book unusable. */
  lemma {:induction false} LastKeepsUnusable(s: State, events: seq<Event>, id: string)
    requires events != [] && Unusable(Run(s, events[..|events| - 1]), id)
    requires !Recomputes(Run(s, events[..|events| - 1]), events[|events| - 1], id)
    ensures Unusable(Run(s, events), id)
  {
    UnusableStep(Run(s, events[..|events| - 1]), events[|events| - 1], id);
  }

  /** No full book or price change is accepted for the asset from event `k` on. */
  ghost predicate NotRecomputed(s: State, events: seq<Event>, id: string, k: nat) {
    forall j :: k <= j < |events| ==> !Recomputes(Run(s, events[..j]), events[j], id)
  }

  lemma {:induction false} FrontNotRecomputed(s: State, events: seq<Event>, id: string, k: nat)
    requires k < |events| && NotRecomputed(s, events, id, k)
    ensures NotRecomputed(s, events[..|events| - 1], id, k)
    ensures !Recomputes(Run(s, events[..|events| - 1]), events[|events| - 1], id)
  {
    var front := events[..|events| - 1];
    forall j | k <= j < |front| ensures !Recomputes(Run(s, front[..j]), front[j], id) {
      assert front[..j] == events[..j];
    }
  }

  /** A book unusable after `k` events stays so until a full book or a price change is accepted for it. */
  lemma {:induction false} StaysUnusable(s: State, events: seq<Event>, id: string, k: nat)
    requires k <= |events| && Unusable(Run(s, events[..k]), id) && NotRecomputed(s, events, id, k)
    ensures Unusable(Run(s, events), id)
  {
    if k == |events| {
      assert events[..k] == events;
    } else {
      FrontNotRecomputed(s, events, id, k);
      assert events[..|events| - 1][..k] == events[..k];
      StaysUnusable(s, events[..|events| - 1], id, k);
      LastKeepsUnusable(s, events, id);
    }
  }

  /**
   The third mismatch since the count last started locks the book, whatever comes between the mismatches,
   price changes included, and it stays locked until a full book or a price change is accepted for it.
   */
  lemma {:induction false} ThirdMismatchLocks(s: State, events: seq<Event>, id: string, i: nat)
    requires i < |events| && NeverRestarts(s, events[..i], id)
    requires Mismatch(Run(s, events[..i]), events[i], id)
    requires DivergenceOf(s, id) + Mismatches(s, events[..i], id) + 1 >= 3
    requires NotRecomputed(s, events, id, i + 1)
    ensures Unusable(Run(s, events), id)
  {
    CountedMismatchLocks(s, events[..i], events[i], id);
    assert events[..i + 1][..i] == events[..i];
    StaysUnusable(s, events, id, i + 1);
  }

  /** A lock that a price change lifted comes back with the very next mismatch, unless the count has started again. */
  lemma {:induction false} LiftedLockReturns(s: State, events: seq<Event>, e: Event, id: string)
    requires DivergenceOf(s, id) >= 3 && NeverRestarts(s, events, id) && Mismatch(Run(s, events), e, id)
    ensures Unusable(Apply(Run(s, events), e), id)
  {
    CountedMismatchLocks(s, events, e, id);
  }

  /** Mismatches since the count last started: since a full book, or an agreement while the book was coherent. */
  function SinceRestart(events: seq<Event>, id: string): nat {
    if events == [] then 0
    else
      var front, e := events[..|events| - 1], events[|events| - 1];
      if Restarts(Run(INITIAL, front), e, id) then 0
      else SinceRestart(front, id) + if Mismatch(Run(INITIAL, front), e, id) then 1 else 0
  }

  lemma RestartClears(s: State, e: Event, id: string)
    requires Restarts(s, e, id)
    ensures DivergenceOf(Apply(s, e), id) == 0
  {
    ApplyToOneBook(s, e, id);
  }

  /** In every reachable state the count of an initialised book is exactly its mismatches since it last started. */
  lemma {:induction false} DivergenceIs(events: seq<Event>, id: string)
    requires Initialized(Run(INITIAL, events), id)
    ensures DivergenceOf(Run(INITIAL, events), id) == SinceRestart(events, id)
  {
    var front, e := events[..|events| - 1], events[|events| - 1];
    var s := Run(INITIAL, front);
    if Restarts(s, e, id) {
      RestartClears(s, e, id);
    } else {
      DivergenceStep(s, e, id);
      DivergenceIs(front, id);
    }
  }

  lemma StepUsable(book: Book, e: Event)
    requires book.initialized && book.coherent
    requires !e.payload.PolymarketBook? && !e.payload.PolymarketPriceChange?
    requires !(e.payload.PolymarketBestBidAsk? && !Matches(book, e.payload.bestBid, e.payload.bestAsk))
    ensures BookStep(book, e).initialized && BookStep(book, e).coherent
  {
  }

  /** A usable book that stays in the table becomes unusable only by a mismatch, a recomputation or a CLOB status. */
  lemma UnusableOnlyBy(s: State, e: Event, id: string)
    requires !Unusable(s, id) && id in Apply(s, e).books && Unusable(Apply(s, e), id)
    ensures Mismatch(s, e, id) || Recomputes(s, e, id)
            || (e.payload.SourceStatus? && e.payload.source == POLYMARKET_CLOB)
  {
    if Accepts(s, e, id) {
      ApplyToOneBook(s, e, id);
      if !Mismatch(s, e, id) && !Recomputes(s, e, id) {
        StepUsable(s.books[id], e);
      }
    } else if !e.payload.SourceStatus? {
      OtherKeepsBook(s, e, id);
    }
  }

  /** An unusable book stays so, over any events, until a full book or a price change is accepted for it. */
  lemma {:induction false} LockHolds(s: State, events: seq<Event>, id: string)
    requires Unusable(s, id) && NotRecomputed(s, events, id, 0)
    ensures Unusable(Run(s, events), id)
  {
    assert Run(s, events[..0]) == s;
    StaysUnusable(s, events, id, 0);
  }

  /** A price change does lift the lock: the book is coherent again exactly when its best prices do not cross. */
  lemma PriceChangeLiftsLock(s: State, e: Event, id: string)
    requires Initialized(s, id) && Accepts(s, e, id) && e.payload.PolymarketPriceChange?
    ensures var sides := ChangeSides(Sides(s.books[id].bids, s.books[id].asks), e.payload);
            Unusable(Apply(s, e), id) <==> !Uncrossed(sides.bids, sides.asks)
  {
    ApplyToOneBook(s, e, id);
  }
}
