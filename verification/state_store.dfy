/** The single-writer live state kept in place (market_data/state.py:126-563). */
module StateStore {
  import opened Wrappers
  import opened Models
  import opened Rolling
  import opened OrderBook
  import opened LiveState
  import opened Snapshots

  class Store {
    const config: Config
    var chainlink: Option<Event>
    var aggTrade: Option<Event>
    var bookTicker: Option<Event>
    var depth: Option<Event>
    const windows: seq<RollingAccumulator>
    var contexts: map<Timeframe, Context>
    var books: map<string, Book>
    var session: Option<string>
    var staleSessions: nat
    var earlyDeltas: nat
    var connected: set<EventSource>

    ghost predicate Valid()
      reads this, windows
    {
      && |windows| == 4
      && (forall i, j :: 0 <= i < j < 4 ==> windows[i] != windows[j])
      && (forall i :: 0 <= i < 4 ==> Exact(windows[i].State()))
    }

    ghost function Windows(): seq<Window>
      reads this, windows
      requires |windows| == 4
    {
      [windows[0].State(), windows[1].State(), windows[2].State(), windows[3].State()]
    }

    ghost function View(): State
      reads this, windows
      requires |windows| == 4
    {
      State(chainlink, aggTrade, bookTicker, depth, Windows(), contexts, books, session,
            staleSessions, earlyDeltas, connected)
    }

    constructor (config: Config)
      ensures Valid() && View() == INITIAL && fresh(windows) && this.config == config
    {
      this.config := config;
      chainlink, aggTrade, bookTicker, depth := None, None, None, None;
      contexts, books, session, staleSessions, earlyDeltas, connected := map[], map[], None, 0, 0, {};
      var w0 := new RollingAccumulator(1);
      var w1 := new RollingAccumulator(5);
      var w2 := new RollingAccumulator(30);
      var w3 := new RollingAccumulator(60);
      windows := [w0, w1, w2, w3];
    }

    /** The loop that offers a trade to every window. */
    method AddTrade(e: Event)
      requires Valid() && e.payload.BinanceAggTrade?
      modifies windows
      ensures Valid() && Windows() == AddToAll(old(Windows()), RowOf(e.wallNs, e.payload))
    {
      ghost var before := Windows();
      for i := 0 to 4
        invariant Valid()
        invariant forall j :: 0 <= j < 4 ==>
          windows[j].State() == if j < i then Add(before[j], RowOf(e.wallNs, e.payload)) else before[j]
      {
        windows[i].AddTrade(e.wallNs, e.payload);
      }
    }

    method ApplyStatusEvent(source: EventSource, up: bool, sessionId: Option<string>)
      requires Valid()
      modifies this
      ensures Valid() && View() == ApplyStatus(old(View()), source, up, sessionId)
    {
      connected := if up then connected + {source} else connected - {source};
      if source == POLYMARKET_CLOB {
        if !up || sessionId != session {
          books := map id | id in books :: Invalidated(books[id]);
        }
        if up {
          session := sessionId;
        }
      }
    }

    method ApplyMarketWindow(payload: Payload)
      requires Valid() && payload.MarketWindowState?
      modifies this
      ensures Valid() && View() == ApplyMarketState(old(View()), payload)
    {
      contexts := contexts[payload.timeframe :=
        Context(payload.state, payload.currentMarket, payload.nextMarket, payload.expectedTransitionNs,
                payload.lastError)];
      var referenced := Referenced(contexts);
      books := map id | id in books && id in referenced :: books[id];
    }

    method ApplyBookEvent(e: Event)
      requires Valid()
      modifies this
      ensures Valid() && View() == ApplyToBook(old(View()), e)
    {
      if ForBook(contexts, e) {
        var id := e.assetId.value;
        var book := if id in books then books[id] else NewBook(e);
        if !SameIdentity(book, e) {
          return;
        }
        if e.payload.PolymarketPriceChange? && !book.initialized {
          earlyDeltas := earlyDeltas + 1;
        }
        books := books[id := BookStep(book, e)];
      }
    }

    method ApplyCurrentEvent(e: Event)
      requires Valid()
      modifies this, windows
      ensures Valid() && View() == ApplyCurrent(old(View()), e)
    {
      if e.payload.MarketWindowState? {
        ApplyMarketWindow(e.payload);
      } else if e.payload.ChainlinkPrice? {
        chainlink := Some(e);
      } else if e.payload.BinanceAggTrade? {
        aggTrade := Some(e);
        AddTrade(e);
      } else if e.payload.BinanceBookTicker? {
        bookTicker := Some(e);
      } else if e.payload.BinanceDepth20? {
        depth := Some(e);
      } else {
        ApplyBookEvent(e);
      }
    }

    method ApplyEvent(e: Event)
      requires Valid()
      modifies this, windows
      ensures Valid() && View() == Apply(old(View()), e)
    {
      if e.payload.SourceStatus? {
        ApplyStatusEvent(e.payload.source, e.payload.connected, e.payload.sessionId);
      } else if e.source == POLYMARKET_CLOB && session.Some? && e.sessionId != session {
        staleSessions := staleSessions + 1;
      } else {
        ApplyCurrentEvent(e);
      }
    }

    method SetConnected(source: EventSource, up: bool)
      requires Valid()
      modifies this`connected
      ensures Valid() && View() == WithConnection(old(View()), source, up)
    {
      connected := if up then connected + {source} else connected - {source};
    }

    method ReadWindow(i: nat, nowNs: int) returns (shot: WindowSnapshot)
      requires Valid() && i < 4
      modifies windows[i]
      ensures Valid() && Windows() == old(Windows())[i := Expire(old(Windows())[i], nowNs)]
      ensures shot == Read(Windows()[i])
    {
      shot := windows[i].Snapshot(nowNs);
    }

    /** `_rolling`: reading the windows makes each of them forget what is too old. */
    method ReadWindows(nowNs: int) returns (shots: seq<WindowSnapshot>)
      requires Valid()
      modifies windows
      ensures Valid() && Windows() == ExpireAll(old(Windows()), nowNs)
      ensures shots == ReadAll(Windows())
    {
      ghost var before, now := Windows(), Windows();
      shots := [];
      for i := 0 to 4
        invariant |shots| == i && Valid() && now == Windows()
        invariant forall j :: 0 <= j < 4 ==> now[j] == if j < i then Expire(before[j], nowNs) else before[j]
        invariant forall j :: 0 <= j < i ==> shots[j] == Read(now[j])
      {
        var shot := ReadWindow(i, nowNs);
        shots, now := shots + [shot], Windows();
      }
    }

    method TakeSnapshot(nowNs: int, number: int, health: seq<(EventSource, SourceHealth)>) returns (shown: Snapshot)
      requires Valid()
      modifies windows
      ensures Valid() && View() == Expired(old(View()), nowNs)
      ensures shown == SnapshotOf(config, View(), nowNs, number, health)
    {
      var shots := ReadWindows(nowNs);
      var market5m := TimeframeOf(contexts, books, FIVE_MINUTES, nowNs);
      var market15m := TimeframeOf(contexts, books, FIFTEEN_MINUTES, nowNs);
      var reasons := SourceReasons(config, connected, chainlink, depth, aggTrade, bookTicker, nowNs)
                     + MarketsReasons(market5m, market15m);
      shown := Snapshot(number, nowNs, market5m, market15m, ChainlinkOf(chainlink, nowNs),
                        BinanceOf(aggTrade, bookTicker, depth, shots), health, reasons == [], EachOnce(reasons));
    }
  }
}
