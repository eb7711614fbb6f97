/** Parsing of one CLOB message into canonical events (market_data/sources/polymarket_clob.py:65-312). */
module ClobParser {
  import opened Wrappers
  import opened Models
  import opened JsonValues
  import opened OrderBook
  import opened Subscriptions

  /** The digest that identifies an event without a hash of its own, how an id is put together, and lower case. */
  datatype Texts = Texts(digest: (Fields, string, string, int) -> string, eventId: (string, string, string) -> string,
                         lower: string -> string)

  /** How and when the message was received, and the number of its first event. */
  datatype Reception = Reception(wallNs: int, monotonicNs: int, first: int, session: Option<string>)

  /** All that the events of one message have in common. */
  datatype Scope = Scope(h: Host, t: Texts, message: Fields, assets: Assets, timestampNs: int, rx: Reception)

  /** `parse_decimal`; none where it raises. A text that is no finite decimal has no number. */
  function ParseDecimal(h: Host, text: string, strictlyPositive: bool): (r: Option<real>)
    ensures r.Some? ==> r.value >= 0.0 && (strictlyPositive ==> r.value > 0.0)
  {
    var d :- h.decimal(text);
    if d < 0.0 || (strictlyPositive && d == 0.0) then None else Some(d)
  }

  function DecimalAt(h: Host, f: Fields, key: string, strictlyPositive: bool): (r: Option<real>)
    ensures r.Some? ==> r.value >= 0.0 && (strictlyPositive ==> r.value > 0.0)
  {
    var j :- JsonValues.Required(f, key);
    ParseDecimal(h, Str(h, j), strictlyPositive)
  }

  /** The same for a field that may be missing: its text is then the text of nothing. */
  function DecimalGet(h: Host, f: Fields, key: string, strictlyPositive: bool): (r: Option<real>)
    ensures r.Some? ==> r.value >= 0.0 && (strictlyPositive ==> r.value > 0.0)
  {
    ParseDecimal(h, Str(h, Get(f, key)), strictlyPositive)
  }

  function MaybeDecimalAt(h: Host, f: Fields, key: string): Option<Option<real>> {
    if Get(f, key).Null? then Some(None)
    else
      var d :- DecimalGet(h, f, key, false);
      Some(Some(d))
  }

  /** A positive number of milliseconds, in nanoseconds. */
  function TimestampNs(h: Host, f: Fields): (r: Option<int>)
    ensures r.Some? ==> r.value >= 1_000_000
  {
    var ms :- Whole(h, Get(f, "timestamp"));
    if ms <= 0 then None else Some(ms * 1_000_000)
  }

  // The levels of a full book.

  function RowLevel(h: Host, row: Json): (r: Option<Level>)
    ensures r.Some? ==> r.value.price > 0.0 && r.value.quantity >= 0.0
  {
    if !row.Object? then None
    else
      var price :- DecimalGet(h, row.fields, "price", true);
      var quantity :- DecimalGet(h, row.fields, "size", false);
      Some(Level(price, quantity))
  }

  /** The dictionary built from the first `n` rows; a price already in it is an error, a zero quantity is left out. */
  function BookDict(h: Host, rows: seq<Json>, n: nat): Option<Side>
    requires n <= |rows|
  {
    if n == 0 then Some(map[])
    else
      var dict :- BookDict(h, rows, n - 1);
      var level :- RowLevel(h, rows[n - 1]);
      if level.price in dict then None
      else if level.quantity != 0.0 then Some(dict[level.price := level.quantity])
      else Some(dict)
  }

  lemma {:induction false} BookDictPositive(h: Host, rows: seq<Json>, n: nat)
    requires n <= |rows| && BookDict(h, rows, n).Some?
    ensures PositiveSide(BookDict(h, rows, n).value)
  {
    if n > 0 {
      BookDictPositive(h, rows, n - 1);
    }
  }

  lemma {:induction false} BookDictFails(h: Host, rows: seq<Json>, i: nat, n: nat)
    requires i <= n <= |rows| && BookDict(h, rows, i).None?
    ensures BookDict(h, rows, n).None?
  {
    if i < n {
      BookDictFails(h, rows, i, n - 1);
    }
  }

  /** Row `i` puts quantity `q`, which is not zero, at price `p`. */
  predicate Gives(h: Host, rows: seq<Json>, i: nat, p: real, q: real)
    requires i < |rows|
  {
    q != 0.0 && RowLevel(h, rows[i]) == Some(Level(p, q))
  }

  /** Row `j` is a level, and does not have the price of an earlier row that is not empty. */
  ghost predicate NewRow(h: Host, rows: seq<Json>, j: nat)
    requires j < |rows|
  {
    && RowLevel(h, rows[j]).Some?
    && (forall i, q :: 0 <= i < j ==> !Gives(h, rows, i, RowLevel(h, rows[j]).value.price, q))
  }

  ghost predicate AcceptableRows(h: Host, rows: seq<Json>, n: nat)
    requires n <= |rows|
  {
    forall j :: 0 <= j < n ==> NewRow(h, rows, j)
  }

  lemma {:induction false} DictPrice(h: Host, rows: seq<Json>, n: nat, p: real) returns (i: nat)
    requires n <= |rows| && BookDict(h, rows, n).Some? && p in BookDict(h, rows, n).value
    ensures i < n && Gives(h, rows, i, p, BookDict(h, rows, n).value[p])
  {
    if Gives(h, rows, n - 1, p, BookDict(h, rows, n).value[p]) {
      i := n - 1;
    } else {
      i := DictPrice(h, rows, n - 1, p);
    }
  }

  lemma {:induction false} RowIsHeld(h: Host, rows: seq<Json>, n: nat, i: nat, p: real, q: real)
    requires i < n <= |rows| && BookDict(h, rows, n).Some? && Gives(h, rows, i, p, q)
    ensures p in BookDict(h, rows, n).value && BookDict(h, rows, n).value[p] == q
  {
    if i < n - 1 {
      RowIsHeld(h, rows, n - 1, i, p, q);
    }
  }

  /** A row that is accepted repeats no price of the rows before it. */
  lemma {:induction false} AcceptedRow(h: Host, rows: seq<Json>, n: nat)
    requires n < |rows| && BookDict(h, rows, n + 1).Some?
    ensures NewRow(h, rows, n)
  {
    var last := RowLevel(h, rows[n]).value.price;
    forall i, q | 0 <= i < n ensures !Gives(h, rows, i, last, q) {
      if Gives(h, rows, i, last, q) {
        RowIsHeld(h, rows, n, i, last, q);
        assert false;
      }
    }
  }

  lemma {:induction false} AcceptedRows(h: Host, rows: seq<Json>, n: nat)
    requires n <= |rows| && BookDict(h, rows, n).Some?
    ensures AcceptableRows(h, rows, n)
  {
    if n > 0 {
      AcceptedRows(h, rows, n - 1);
      AcceptedRow(h, rows, n - 1);
    }
  }

  lemma {:induction false} AcceptableAccepted(h: Host, rows: seq<Json>, n: nat)
    requires n <= |rows| && AcceptableRows(h, rows, n)
    ensures BookDict(h, rows, n).Some?
  {
    if n > 0 {
      AcceptableAccepted(h, rows, n - 1);
      assert NewRow(h, rows, n - 1);
      var last := RowLevel(h, rows[n - 1]).value.price;
      if last in BookDict(h, rows, n - 1).value {
        var i := DictPrice(h, rows, n - 1, last);
        assert false;
      }
    }
  }

  /** The rows of a side are accepted exactly when acceptable; each row that is not empty is then held as it is. */
  lemma {:induction false} BookDictMeans(h: Host, rows: seq<Json>)
    ensures BookDict(h, rows, |rows|).Some? <==> AcceptableRows(h, rows, |rows|)
    ensures BookDict(h, rows, |rows|).Some? ==>
              var dict := BookDict(h, rows, |rows|).value;
              && (forall i, p, q :: 0 <= i < |rows| && Gives(h, rows, i, p, q) ==> p in dict && dict[p] == q)
              && (forall p :: p in dict ==> exists i :: 0 <= i < |rows| && Gives(h, rows, i, p, dict[p]))
  {
    if AcceptableRows(h, rows, |rows|) {
      AcceptableAccepted(h, rows, |rows|);
    }
    if BookDict(h, rows, |rows|).Some? {
      AcceptedRows(h, rows, |rows|);
      var dict := BookDict(h, rows, |rows|).value;
      forall i, p, q | 0 <= i < |rows| && Gives(h, rows, i, p, q) ensures p in dict && dict[p] == q {
        RowIsHeld(h, rows, |rows|, i, p, q);
      }
      forall p | p in dict ensures exists i :: 0 <= i < |rows| && Gives(h, rows, i, p, dict[p]) {
        var i := DictPrice(h, rows, |rows|, p);
      }
    }
  }

  /** The prices of a side, best first. */
  function SortedPrices(side: Side, descending: bool): (prices: seq<real>)
    ensures Enumerates(prices, side.Keys)
    ensures if descending then Falling(prices) else Rising(prices)
  {
    DescendingSorts(side.Keys);
    AscendingSorts(side.Keys);
    if descending then Descending(side.Keys) else Ascending(side.Keys)
  }

  /** The levels of a positive side at some of its prices. */
  function PriceLevelsAt(side: Side, prices: seq<real>): (levels: seq<PriceLevel>)
    requires PositiveSide(side) && forall i :: 0 <= i < |prices| ==> prices[i] in side
    ensures |levels| == |prices|
    ensures forall i :: 0 <= i < |prices| ==> levels[i].price == prices[i] && levels[i].quantity == side[prices[i]]
  {
    if prices == [] then [] else [Level(prices[0], side[prices[0]])] + PriceLevelsAt(side, prices[1..])
  }

  /** The levels of a side, best first. */
  function SortedLevels(side: Side, descending: bool): (levels: seq<PriceLevel>)
    requires PositiveSide(side)
  {
    PriceLevelsAt(side, SortedPrices(side, descending))
  }

  function BookLevels(h: Host, value: Json, descending: bool): (r: Option<seq<PriceLevel>>) {
    if !value.List? || BookDict(h, value.items, |value.items|).None? then None
    else
      BookDictPositive(h, value.items, |value.items|);
      Some(SortedLevels(BookDict(h, value.items, |value.items|).value, descending))
  }

  lemma {:induction false} NextRow(h: Host, rows: seq<Json>, n: nat, dict: Side)
    requires n < |rows| && BookDict(h, rows, n) == Some(dict)
    ensures var level := RowLevel(h, rows[n]);
            BookDict(h, rows, n + 1) ==
            if level.None? || level.value.price in dict then None
            else if level.value.quantity != 0.0 then Some(dict[level.value.price := level.value.quantity])
            else Some(dict)
  {
  }

  method ReadBookLevels(h: Host, value: Json, descending: bool) returns (r: Option<seq<PriceLevel>>)
    ensures r == BookLevels(h, value, descending)
  {
    if !value.List? {
      return None;
    }
    var dict: Side := map[];
    for i := 0 to |value.items|
      invariant BookDict(h, value.items, i) == Some(dict)
    {
      var level := RowLevel(h, value.items[i]);
      NextRow(h, value.items, i, dict);
      if level.None? || level.value.price in dict {
        BookDictFails(h, value.items, i + 1, |value.items|);
        return None;
      }
      if level.value.quantity != 0.0 {
        dict := dict[level.value.price := level.value.quantity];
      }
    }
    BookDictPositive(h, value.items, |value.items|);
    r := Some(SortedLevels(dict, descending));
  }

  ghost predicate StrictlySorted(levels: seq<PriceLevel>, descending: bool) {
    forall i, j :: 0 <= i < j < |levels| ==>
      if descending then levels[i].price > levels[j].price else levels[i].price < levels[j].price
  }

  /** The levels so far tell of each of their prices what the side says of it. */
  lemma {:induction false} LevelMapOf(side: Side, levels: seq<PriceLevel>)
    requires forall i :: 0 <= i < |levels| ==> levels[i].price in side && levels[i].quantity == side[levels[i].price]
    ensures forall p :: p in LevelMap(levels) ==> p in side && LevelMap(levels)[p] == side[p]
    ensures forall i :: 0 <= i < |levels| ==> levels[i].price in LevelMap(levels)
  {
    if levels != [] {
      LevelMapOf(side, levels[..|levels| - 1]);
      forall i | 0 <= i < |levels| ensures levels[i].price in LevelMap(levels) {
        assert i < |levels| - 1 ==> levels[..|levels| - 1][i] == levels[i];
      }
    }
  }

  lemma {:induction false} PriceIsHeld(side: Side, prices: seq<real>, p: real)
    requires PositiveSide(side) && Enumerates(prices, side.Keys)
    ensures p in LevelMap(PriceLevelsAt(side, prices)) <==> p in side
    ensures p in side ==> LevelMap(PriceLevelsAt(side, prices))[p] == side[p]
  {
    var levels := PriceLevelsAt(side, prices);
    LevelMapOf(side, levels);
    if p in side.Keys {
      var i :| 0 <= i < |prices| && prices[i] == p;
      assert levels[i].price == p;
    }
  }

  lemma {:induction false} LevelsHoldSide(side: Side, prices: seq<real>)
    requires PositiveSide(side) && Enumerates(prices, side.Keys)
    ensures LevelMap(PriceLevelsAt(side, prices)) == side
  {
    var held := LevelMap(PriceLevelsAt(side, prices));
    forall p: real ensures (p in held <==> p in side) && (p in side ==> held[p] == side[p]) {
      PriceIsHeld(side, prices, p);
    }
    assert held.Keys == side.Keys;
  }

  /** The sorted levels are in strict order and hold the whole side: read back as a dictionary they are that side. */
  lemma SortedLevelsHold(side: Side, descending: bool)
    requires PositiveSide(side)
    ensures StrictlySorted(SortedLevels(side, descending), descending)
    ensures LevelMap(SortedLevels(side, descending)) == side
  {
    var prices := SortedPrices(side, descending);
    LevelsHoldSide(side, prices);
    SortedAsPrices(PriceLevelsAt(side, prices), prices, descending);
  }

  lemma SortedAsPrices(levels: seq<PriceLevel>, prices: seq<real>, descending: bool)
    requires |levels| == |prices| && forall i :: 0 <= i < |prices| ==> levels[i].price == prices[i]
    requires if descending then Falling(prices) else Rising(prices)
    ensures StrictlySorted(levels, descending)
  {
    forall i, j | 0 <= i < j < |levels|
      ensures if descending then levels[i].price > levels[j].price else levels[i].price < levels[j].price
    {
      assert levels[i].price == prices[i] && levels[j].price == prices[j];
    }
  }

  lemma SortedLevelsPositive(side: Side, descending: bool)
    requires PositiveSide(side)
    ensures forall i :: 0 <= i < |SortedLevels(side, descending)| ==> SortedLevels(side, descending)[i].quantity > 0.0
  {
  }

  // Events.

  /** The supplied hash, or else the digest of the message. */
  function EventIdOf(c: Scope, f: Fields, assetId: string, kind: string): string {
    c.t.eventId(kind, assetId,
                if Get(f, "hash").Text? && Get(f, "hash").s != "" then Get(f, "hash").s
                else c.t.digest(f, assetId, kind, c.timestampNs))
  }

  function MakeEvent(c: Scope, id: string, kind: string, payload: Payload, f: Fields, offset: nat): Event
    requires id in c.assets
  {
    var metadata := c.assets[id];
    Event(2, c.rx.first + offset, EventIdOf(c, f, id, kind), POLYMARKET_CLOB, id, Some(c.timestampNs), None,
          c.rx.wallNs, c.rx.monotonicNs, TextAt(f, "hash"), Some(metadata.timeframe), Some(metadata.marketId),
          Some(metadata.conditionId), Some(id), Some(metadata.outcome), payload, c.rx.session)
  }

  /** The asset a message or a change names, if it is known. */
  function AssetOf(h: Host, f: Fields, assets: Assets): (r: Option<string>)
    ensures r.Some? ==> r.value in assets
  {
    var id := if "asset_id" in f then Str(h, f["asset_id"]) else "";
    if id in assets then Some(id) else None
  }

  // Price changes: all of them or none.

  function ChangePayload(h: Host, f: Fields): Option<Payload> {
    if Get(f, "side") != Text("BUY") && Get(f, "side") != Text("SELL") then None
    else
      var price :- DecimalGet(h, f, "price", true);
      var quantity :- DecimalGet(h, f, "size", false);
      var bestBid :- MaybeDecimalAt(h, f, "best_bid");
      var bestAsk :- MaybeDecimalAt(h, f, "best_ask");
      Some(PolymarketPriceChange(Get(f, "side").s, price, quantity, bestBid, bestAsk, TextAt(f, "hash")))
  }

  function ChangeEvent(c: Scope, change: Json, offset: nat): Option<Event> {
    if !change.Object? then None
    else
      var id :- AssetOf(c.h, change.fields, c.assets);
      var payload :- ChangePayload(c.h, change.fields);
      Some(MakeEvent(c, id, "price_change", payload, c.message + change.fields, offset))
  }

  /** What `make` gives for 0, 1, ..., n - 1, if it gives something for each. */
  function Collect<T>(make: nat -> Option<T>, n: nat): Option<seq<T>> {
    if n == 0 then Some([])
    else
      var front :- Collect(make, n - 1);
      var last :- make(n - 1);
      Some(front + [last])
  }

  lemma {:induction false} CollectFails<T>(make: nat -> Option<T>, i: nat, n: nat)
    requires i <= n && Collect(make, i).None?
    ensures Collect(make, n).None?
  {
    if i < n {
      CollectFails(make, i, n - 1);
    }
  }

  function ChangeAt(c: Scope, changes: seq<Json>): nat -> Option<Event> {
    (i: nat) => if i < |changes| then ChangeEvent(c, changes[i], i) else None
  }

  /** All or nothing: something is collected exactly when every item is there, and then it is the items in order. */
  lemma {:induction false} CollectMeans<T>(make: nat -> Option<T>, n: nat)
    ensures Collect(make, n).Some? <==> forall i: nat :: i < n ==> make(i).Some?
    ensures Collect(make, n).Some? ==>
              |Collect(make, n).value| == n && forall i: nat :: i < n ==> make(i) == Some(Collect(make, n).value[i])
  {
    if n > 0 {
      CollectMeans(make, n - 1);
    }
  }

  /** The loop that stops at the first failure. */
  method CollectAll<T>(make: nat -> Option<T>, n: nat) returns (r: Option<seq<T>>)
    ensures r == Collect(make, n)
  {
    var found: seq<T> := [];
    for i := 0 to n
      invariant Collect(make, i) == Some(found)
    {
      var next := make(i);
      if next.None? {
        CollectFails(make, i + 1, n);
        return None;
      }
      found := found + [next.value];
    }
    r := Some(found);
  }

  method ReadChanges(c: Scope, changes: seq<Json>) returns (r: Option<seq<Event>>)
    ensures r == Collect(ChangeAt(c, changes), |changes|)
  {
    r := CollectAll(ChangeAt(c, changes), |changes|);
  }

  // Market resolutions.

  function TextItems(items: seq<Json>): Option<seq<string>> {
    if items == [] then Some([])
    else if !items[0].Text? || items[0].s == "" then None
    else
      var rest :- TextItems(items[1..]);
      Some([items[0].s] + rest)
  }

  predicate Concerns(f: Fields, metadata: Metadata) {
    || (Get(f, "market").Text? && Get(f, "market").s in {metadata.marketId, metadata.conditionId})
    || (Get(f, "condition_id").Text? && Get(f, "condition_id").s == metadata.conditionId)
  }

  /** The known assets the message is about, in the order of the table. */
  function Matching(f: Fields, assets: Assets, order: seq<string>): seq<string> {
    if order == [] then []
    else
      (if order[0] in assets && Concerns(f, assets[order[0]]) then [order[0]] else [])
      + Matching(f, assets, order[1..])
  }

  predicate AllKnown(ids: seq<string>, assets: Assets) {
    forall i :: 0 <= i < |ids| ==> ids[i] in assets
  }

  /** The assets named, or else matched; none unless there is one and all are known. */
  function Affected(f: Fields, assets: Assets, order: seq<string>): (r: Option<seq<string>>)
    ensures r.Some? ==> r.value != [] && AllKnown(r.value, assets)
  {
    var named := Get(f, "assets_ids");
    if !named.Null? && !named.List? then None
    else
      var ids :- if named.List? then TextItems(named.items) else Some(Matching(f, assets, order));
      if ids == [] || !AllKnown(ids, assets) then None else Some(ids)
  }

  function WinningOutcome(t: Texts, f: Fields, assets: Assets): Option<Outcome> {
    var named := Get(f, "winning_outcome");
    var winner := TextAt(f, "winning_asset_id");
    if named.Text? && t.lower(named.s) == "up" then Some(UP)
    else if named.Text? && t.lower(named.s) == "down" then Some(DOWN)
    else if winner.Some? && winner.value in assets then Some(assets[winner.value].outcome)
    else None
  }

  function ResolvedPayload(c: Scope, affected: seq<string>): Payload
    requires affected != [] && affected[0] in c.assets
  {
    var market, condition := TextAt(c.message, "market"), TextAt(c.message, "condition_id");
    PolymarketResolved(
      TextAt(c.message, "winning_asset_id"), WinningOutcome(c.t, c.message, c.assets), affected,
      Some(if market.Some? then market.value else c.assets[affected[0]].marketId),
      Some(if condition.Some? then condition.value else c.assets[affected[0]].conditionId))
  }

  function ResolvedEvents(c: Scope, ids: seq<string>, payload: Payload, n: nat): seq<Event>
    requires n <= |ids| && AllKnown(ids, c.assets)
  {
    if n == 0 then []
    else
      ResolvedEvents(c, ids, payload, n - 1)
      + [MakeEvent(c, ids[n - 1], "market_resolved", payload, c.message, n - 1)]
  }

  // Single events.

  /** The best prices of the sorted sides do not meet. */
  predicate BestApart(bids: seq<PriceLevel>, asks: seq<PriceLevel>) {
    bids == [] || asks == [] || bids[0].price < asks[0].price
  }

  function BookPayload(h: Host, f: Fields): Option<Payload> {
    var bids :- BookLevels(h, Get(f, "bids"), true);
    var asks :- BookLevels(h, Get(f, "asks"), false);
    if BestApart(bids, asks) then Some(PolymarketBook(bids, asks, TextAt(f, "hash"))) else None
  }

  function BestPayload(h: Host, f: Fields): Option<Payload> {
    var bestBid :- DecimalAt(h, f, "best_bid", false);
    var bestAsk :- DecimalAt(h, f, "best_ask", false);
    var spread :- DecimalAt(h, f, "spread", false);
    Some(PolymarketBestBidAsk(Some(bestBid), Some(bestAsk), Some(spread)))
  }

  function LastTradePayload(h: Host, f: Fields): Option<Payload> {
    var price :- DecimalAt(h, f, "price", true);
    var quantity :- DecimalAt(h, f, "size", true);
    var side :- StrAt(h, f, "side");
    var fee :- MaybeDecimalAt(h, f, "fee_rate_bps");
    Some(PolymarketLastTrade(price, quantity, side, fee))
  }

  function TickSizePayload(h: Host, f: Fields): Option<Payload> {
    var old_ :- DecimalAt(h, f, "old_tick_size", true);
    var new_ :- DecimalAt(h, f, "new_tick_size", true);
    Some(PolymarketTickSize(old_, new_))
  }

  function PayloadOf(h: Host, f: Fields, kind: string): Option<Payload> {
    if kind == "book" then BookPayload(h, f)
    else if kind == "best_bid_ask" then BestPayload(h, f)
    else if kind == "last_trade_price" then LastTradePayload(h, f)
    else if kind == "tick_size_change" then TickSizePayload(h, f)
    else None
  }

  // One message.

  function ResolutionEvents(c: Scope, order: seq<string>): Option<seq<Event>> {
    var affected :- Affected(c.message, c.assets, order);
    Some(ResolvedEvents(c, affected, ResolvedPayload(c, affected), |affected|))
  }

  function ChangeEvents(c: Scope): Option<seq<Event>> {
    var changes := Get(c.message, "price_changes");
    if !changes.List? || changes.items == [] then None else Collect(ChangeAt(c, changes.items), |changes.items|)
  }

  function SingleEvents(c: Scope): Option<seq<Event>> {
    var id :- AssetOf(c.h, c.message, c.assets);
    var kind :- TextAt(c.message, "event_type");
    var payload :- PayloadOf(c.h, c.message, kind);
    Some([MakeEvent(c, id, kind, payload, c.message, 0)])
  }

  function EventsOf(c: Scope, order: seq<string>): Option<seq<Event>> {
    if Get(c.message, "event_type") == Text("market_resolved") then ResolutionEvents(c, order)
    else if Get(c.message, "event_type") == Text("price_change") then ChangeEvents(c)
    else SingleEvents(c)
  }

  /**
   `apply_clob_message`: the events of a message, or none where it raises InvalidEventError. `order` is
   the order of the asset table.
   */
  function ApplyMessage(h: Host, t: Texts, message: Json, assets: Assets, order: seq<string>, rx: Reception):
    Option<seq<Event>>
  {
    if !message.Object? then None
    else
      var timestampNs :- TimestampNs(h, message.fields);
      EventsOf(Scope(h, t, message.fields, assets, timestampNs, rx), order)
  }

  // What every accepted message gives.

  predicate Describes(metadata: Metadata, e: Event) {
    && e.timeframe == Some(metadata.timeframe) && e.marketId == Some(metadata.marketId)
    && e.conditionId == Some(metadata.conditionId) && e.outcome == Some(metadata.outcome)
  }

  /** Event `k` of a message: for a known asset, described as the table describes it, with the next number. */
  predicate WellFormed(e: Event, assets: Assets, rx: Reception, k: nat) {
    && e.schemaVersion == 2 && e.source == POLYMARKET_CLOB && e.number == rx.first + k && e.sessionId == rx.session
    && e.assetId.Some? && e.assetId.value in assets && e.instrument == e.assetId.value
    && Describes(assets[e.assetId.value], e)
    && e.sourceNs.Some? && e.sourceNs.value > 0
  }

  ghost predicate AllWellFormed(events: seq<Event>, assets: Assets, rx: Reception) {
    forall k :: 0 <= k < |events| ==> WellFormed(events[k], assets, rx, k) && PositiveLevels(events[k])
  }

  lemma MadeWellFormed(c: Scope, id: string, kind: string, payload: Payload, f: Fields, offset: nat)
    requires id in c.assets && c.timestampNs > 0
    ensures WellFormed(MakeEvent(c, id, kind, payload, f, offset), c.assets, c.rx, offset)
  {
  }

  lemma ChangeWellFormed(c: Scope, change: Json, offset: nat)
    requires c.timestampNs > 0 && ChangeEvent(c, change, offset).Some?
    ensures var e := ChangeEvent(c, change, offset).value; WellFormed(e, c.assets, c.rx, offset) && PositiveLevels(e)
  {
    MadeWellFormed(c, AssetOf(c.h, change.fields, c.assets).value, "price_change",
                   ChangePayload(c.h, change.fields).value, c.message + change.fields, offset);
  }

  lemma {:induction false} ChangesWellFormed(c: Scope, changes: seq<Json>)
    requires c.timestampNs > 0 && Collect(ChangeAt(c, changes), |changes|).Some?
    ensures var events := Collect(ChangeAt(c, changes), |changes|).value;
            |events| == |changes| && AllWellFormed(events, c.assets, c.rx)
  {
    CollectMeans(ChangeAt(c, changes), |changes|);
    var events := Collect(ChangeAt(c, changes), |changes|).value;
    forall k | 0 <= k < |events| ensures WellFormed(events[k], c.assets, c.rx, k) && PositiveLevels(events[k]) {
      assert ChangeAt(c, changes)(k) == Some(events[k]);
      ChangeWellFormed(c, changes[k], k);
    }
  }

  lemma {:induction false} ResolvedWellFormed(c: Scope, ids: seq<string>, payload: Payload, n: nat)
    requires n <= |ids| && AllKnown(ids, c.assets) && payload.PolymarketResolved? && c.timestampNs > 0
    ensures var events := ResolvedEvents(c, ids, payload, n); |events| == n && AllWellFormed(events, c.assets, c.rx)
  {
    if n > 0 {
      ResolvedWellFormed(c, ids, payload, n - 1);
      MadeWellFormed(c, ids[n - 1], "market_resolved", payload, c.message, n - 1);
    }
  }

  /** A resolution gives one event for each affected asset, in order, all with the same payload. */
  lemma {:induction false} ResolvedForEach(c: Scope, ids: seq<string>, payload: Payload, n: nat)
    requires n <= |ids| && AllKnown(ids, c.assets)
    ensures var events := ResolvedEvents(c, ids, payload, n);
            && |events| == n
            && (forall k :: 0 <= k < n ==> events[k].assetId == Some(ids[k]) && events[k].payload == payload)
  {
    if n > 0 {
      ResolvedForEach(c, ids, payload, n - 1);
    }
  }

  predicate PositiveBook(p: Payload) {
    p.PolymarketBook? ==>
      && (forall i :: 0 <= i < |p.bids| ==> p.bids[i].quantity > 0.0)
      && (forall i :: 0 <= i < |p.asks| ==> p.asks[i].quantity > 0.0)
  }

  lemma PayloadPositive(h: Host, f: Fields, kind: string)
    requires PayloadOf(h, f, kind).Some?
    ensures PositiveBook(PayloadOf(h, f, kind).value) && !PayloadOf(h, f, kind).value.PolymarketPriceChange?
  {
    if kind == "book" {
      SideRead(h, Get(f, "bids"), true);
      SideRead(h, Get(f, "asks"), false);
    } else if kind == "best_bid_ask" {
      assert BestPayload(h, f).value.PolymarketBestBidAsk?;
    } else if kind == "last_trade_price" {
      assert LastTradePayload(h, f).value.PolymarketLastTrade?;
    } else {
      assert TickSizePayload(h, f).value.PolymarketTickSize?;
    }
  }

  lemma SingleWellFormed(c: Scope)
    requires c.timestampNs > 0 && SingleEvents(c).Some?
    ensures SingleEvents(c).value != [] && AllWellFormed(SingleEvents(c).value, c.assets, c.rx)
  {
    var id, kind := AssetOf(c.h, c.message, c.assets).value, TextAt(c.message, "event_type").value;
    MadeWellFormed(c, id, kind, PayloadOf(c.h, c.message, kind).value, c.message, 0);
    PayloadPositive(c.h, c.message, kind);
  }

  /**
   A message is taken whole or not at all. The events of an accepted one are at least one, numbered
   from the given number on, each for a known asset and described as the table describes it; every
   level of a full book has a positive price and quantity, every change a positive price.
   */
  lemma MessageWellFormed(h: Host, t: Texts, message: Json, assets: Assets, order: seq<string>, rx: Reception)
    requires ApplyMessage(h, t, message, assets, order, rx).Some?
    ensures var events := ApplyMessage(h, t, message, assets, order, rx).value;
            events != [] && AllWellFormed(events, assets, rx)
  {
    var f := message.fields;
    var c := Scope(h, t, f, assets, TimestampNs(h, f).value, rx);
    if Get(f, "event_type") == Text("market_resolved") {
      var affected := Affected(f, assets, order).value;
      ResolvedWellFormed(c, affected, ResolvedPayload(c, affected), |affected|);
    } else if Get(f, "event_type") == Text("price_change") {
      var changes := Get(f, "price_changes").items;
      ChangesWellFormed(c, changes);
    } else {
      SingleWellFormed(c);
    }
  }

  /** The levels read for one side: strictly sorted, positive, and as a dictionary exactly the rows' dictionary. */
  lemma {:induction false} SideRead(h: Host, value: Json, descending: bool)
    requires BookLevels(h, value, descending).Some?
    ensures value.List? && BookDict(h, value.items, |value.items|).Some?
    ensures var levels, side := BookLevels(h, value, descending).value, BookDict(h, value.items, |value.items|).value;
            && PositiveSide(side) && LevelMap(levels) == side && levels == SortedLevels(side, descending)
            && StrictlySorted(levels, descending)
            && (forall i :: 0 <= i < |levels| ==> levels[i].quantity > 0.0)
  {
    BookDictPositive(h, value.items, |value.items|);
    var side := BookDict(h, value.items, |value.items|).value;
    SortedLevelsHold(side, descending);
    SortedLevelsPositive(side, descending);
  }

  /**
   An accepted full book is sorted on both sides, best first, holds exactly the rows of the message, and
   its best prices do not meet.
   */
  lemma {:induction false} AcceptedBook(h: Host, f: Fields)
    requires BookPayload(h, f).Some?
    ensures var p := BookPayload(h, f).value;
            && p.PolymarketBook? && StrictlySorted(p.bids, true) && StrictlySorted(p.asks, false)
            && Get(f, "bids").List? && Get(f, "asks").List?
            && BookDict(h, Get(f, "bids").items, |Get(f, "bids").items|) == Some(LevelMap(p.bids))
            && BookDict(h, Get(f, "asks").items, |Get(f, "asks").items|) == Some(LevelMap(p.asks))
            && Uncrossed(LevelMap(p.bids), LevelMap(p.asks))
  {
    SideRead(h, Get(f, "bids"), true);
    SideRead(h, Get(f, "asks"), false);
    var p := BookPayload(h, f).value;
    BestFirst(LevelMap(p.bids), LevelMap(p.asks));
  }

  /** The rows of a side make a dictionary. */
  predicate IsSide(h: Host, value: Json) {
    value.List? && BookDict(h, value.items, |value.items|).Some?
  }

  /** A full book is accepted if and only if both sides make a dictionary and these do not cross. */
  lemma {:induction false} BookAcceptedIff(h: Host, f: Fields)
    ensures PayloadOf(h, f, "book").Some? <==>
            && IsSide(h, Get(f, "bids")) && IsSide(h, Get(f, "asks"))
            && Uncrossed(BookDict(h, Get(f, "bids").items, |Get(f, "bids").items|).value,
                         BookDict(h, Get(f, "asks").items, |Get(f, "asks").items|).value)
  {
    if IsSide(h, Get(f, "bids")) && IsSide(h, Get(f, "asks")) {
      SideRead(h, Get(f, "bids"), true);
      SideRead(h, Get(f, "asks"), false);
      BestFirst(BookDict(h, Get(f, "bids").items, |Get(f, "bids").items|).value,
                BookDict(h, Get(f, "asks").items, |Get(f, "asks").items|).value);
    }
  }

  lemma BestFirst(bids: Side, asks: Side)
    requires PositiveSide(bids) && PositiveSide(asks)
    ensures bids.Keys != {} ==> SortedLevels(bids, true) != [] && SortedLevels(bids, true)[0].price == MaxOf(bids.Keys)
    ensures asks.Keys != {} ==>
              SortedLevels(asks, false) != [] && SortedLevels(asks, false)[0].price == MinOf(asks.Keys)
  {
    FirstIsBest(bids.Keys, SortedPrices(bids, true), true);
    FirstIsBest(asks.Keys, SortedPrices(asks, false), false);
  }

  lemma FirstIsBest(prices: set<real>, sorted: seq<real>, descending: bool)
    requires Enumerates(sorted, prices) && (if descending then Falling(sorted) else Rising(sorted))
    ensures prices != {} ==> sorted != [] && sorted[0] == if descending then MaxOf(prices) else MinOf(prices)
  {
    if prices != {} {
      var best := if descending then MaxOf(prices) else MinOf(prices);
      var i :| 0 <= i < |sorted| && sorted[i] == best;
      assert sorted[0] in prices;
    }
  }

  // What a provider writes is what is read.

  /** One change as the provider writes it. */
  function ChangeJson(h: Host, p: Payload): Fields
    requires p.PolymarketPriceChange?
  {
    map["side" := Text(p.side), "price" := Decimal(h, p.price), "size" := Decimal(h, p.quantity),
        "best_bid" := MaybeDecimal(h, p.bestBid), "best_ask" := MaybeDecimal(h, p.bestAsk),
        "hash" := MaybeText(p.changeHash)]
  }

  function BestJson(h: Host, bestBid: real, bestAsk: real, spread: real): Fields {
    map["best_bid" := Decimal(h, bestBid), "best_ask" := Decimal(h, bestAsk), "spread" := Decimal(h, spread)]
  }

  function LastTradeJson(h: Host, p: Payload): Fields
    requires p.PolymarketLastTrade?
  {
    map["price" := Decimal(h, p.price), "size" := Decimal(h, p.quantity), "side" := Text(p.side),
        "fee_rate_bps" := MaybeDecimal(h, p.feeRateBps)]
  }

  predicate Writable(h: Host, d: real, strictlyPositive: bool) {
    h.exact(d) && d >= 0.0 && (strictlyPositive ==> d > 0.0)
  }

  predicate MaybeWritable(h: Host, d: Option<real>) {
    d.Some? ==> Writable(h, d.value, false)
  }

  lemma ChangeIsRead(h: Host, p: Payload)
    requires Sensible(h) && p.PolymarketPriceChange? && (p.side == "BUY" || p.side == "SELL")
    requires Writable(h, p.price, true) && Writable(h, p.quantity, false)
    requires MaybeWritable(h, p.bestBid) && MaybeWritable(h, p.bestAsk)
    ensures ChangePayload(h, ChangeJson(h, p)) == Some(p)
  {
  }

  lemma BestIsRead(h: Host, bestBid: real, bestAsk: real, spread: real)
    requires Sensible(h) && Writable(h, bestBid, false) && Writable(h, bestAsk, false) && Writable(h, spread, false)
    ensures BestPayload(h, BestJson(h, bestBid, bestAsk, spread)) ==
            Some(PolymarketBestBidAsk(Some(bestBid), Some(bestAsk), Some(spread)))
    ensures var f := BestJson(h, bestBid, bestAsk, spread); PayloadOf(h, f, "best_bid_ask") == BestPayload(h, f)
  {
  }

  lemma LastTradeIsRead(h: Host, p: Payload)
    requires Sensible(h) && p.PolymarketLastTrade? && MaybeWritable(h, p.feeRateBps)
    requires Writable(h, p.price, true) && Writable(h, p.quantity, true)
    ensures LastTradePayload(h, LastTradeJson(h, p)) == Some(p) == PayloadOf(h, LastTradeJson(h, p), "last_trade_price")
  {
  }

  function TickSizeJson(h: Host, from: real, to: real): Fields {
    map["old_tick_size" := Decimal(h, from), "new_tick_size" := Decimal(h, to)]
  }

  lemma TickSizeIsRead(h: Host, from: real, to: real)
    requires Sensible(h) && Writable(h, from, true) && Writable(h, to, true)
    ensures TickSizePayload(h, TickSizeJson(h, from, to)) == Some(PolymarketTickSize(from, to))
    ensures PayloadOf(h, TickSizeJson(h, from, to), "tick_size_change") == Some(PolymarketTickSize(from, to))
  {
  }

  function RowJson(h: Host, level: Level): Json {
    Object(map["price" := Decimal(h, level.price), "size" := Decimal(h, level.quantity)])
  }

  lemma RowIsRead(h: Host, level: Level)
    requires Sensible(h) && Writable(h, level.price, true) && Writable(h, level.quantity, false)
    ensures RowLevel(h, RowJson(h, level)) == Some(level)
  {
  }

  // What each message means for its events.

  /** The event is received as `c` says, about the asset, with the payload, as event `offset` of its message. */
  predicate EventSays(c: Scope, e: Event, id: string, payload: Payload, offset: nat) {
    && id in c.assets && e.assetId == Some(id) && e.payload == payload && WellFormed(e, c.assets, c.rx, offset)
    && e.sourceNs == Some(c.timestampNs) && e.serverNs.None?
    && e.wallNs == c.rx.wallNs && e.monotonicNs == c.rx.monotonicNs
  }

  /**
   An event is named after its kind, its asset and the hash that came with it, so whoever receives it gives it the same
   id; without a hash the digest of the message takes its place.
   */
  lemma EventNamed(c: Scope, id: string, kind: string, payload: Payload, f: Fields, offset: nat, hash: string)
    requires id in c.assets
    ensures var e := MakeEvent(c, id, kind, payload, f, offset);
            && (Get(f, "hash") == Text(hash) ==> e.sourceSequence == Some(hash))
            && (Get(f, "hash") == Text(hash) && hash != "" ==> e.eventId == c.t.eventId(kind, id, hash))
            && (!Get(f, "hash").Text? ==>
                  e.sourceSequence.None? && e.eventId == c.t.eventId(kind, id, c.t.digest(f, id, kind, c.timestampNs)))
  {
  }

  /** The asset a message or change names by its "asset_id". */
  lemma AssetMeans(h: Host, f: Fields, assets: Assets, id: string)
    requires "asset_id" in f && f["asset_id"] == Text(id)
    ensures AssetOf(h, f, assets) == if id in assets then Some(id) else None
  {
  }

  /** Which payload each kind of message carries. */
  predicate KindCarries(kind: string, p: Payload) {
    && (kind == "book" ==> p.PolymarketBook?) && (kind == "best_bid_ask" ==> p.PolymarketBestBidAsk?)
    && (kind == "last_trade_price" ==> p.PolymarketLastTrade?) && (kind == "tick_size_change" ==> p.PolymarketTickSize?)
    && (p.PolymarketBook? || p.PolymarketBestBidAsk? || p.PolymarketLastTrade? || p.PolymarketTickSize?)
  }

  lemma KindMeans(h: Host, f: Fields, kind: string)
    requires PayloadOf(h, f, kind).Some?
    ensures KindCarries(kind, PayloadOf(h, f, kind).value)
  {
    if kind == "book" {
      assert BookPayload(h, f).value.PolymarketBook?;
    } else if kind == "best_bid_ask" {
      assert BestPayload(h, f).value.PolymarketBestBidAsk?;
    } else if kind == "last_trade_price" {
      assert LastTradePayload(h, f).value.PolymarketLastTrade?;
    } else {
      assert TickSizePayload(h, f).value.PolymarketTickSize?;
    }
  }

  /** A message of a single kind gives one event, about the asset it names, with the payload of its kind. */
  lemma SingleMeans(c: Scope, id: string, kind: string)
    requires c.timestampNs > 0 && "asset_id" in c.message && c.message["asset_id"] == Text(id)
    requires TextAt(c.message, "event_type") == Some(kind)
    ensures SingleEvents(c).Some? <==> id in c.assets && PayloadOf(c.h, c.message, kind).Some?
    ensures SingleEvents(c).Some? ==>
              && |SingleEvents(c).value| == 1 && KindCarries(kind, PayloadOf(c.h, c.message, kind).value)
              && EventSays(c, SingleEvents(c).value[0], id, PayloadOf(c.h, c.message, kind).value, 0)
  {
    AssetMeans(c.h, c.message, c.assets, id);
    if id in c.assets && PayloadOf(c.h, c.message, kind).Some? {
      KindMeans(c.h, c.message, kind);
      MadeWellFormed(c, id, kind, PayloadOf(c.h, c.message, kind).value, c.message, 0);
    }
  }

  /** Change `k` of an accepted message gives event `k`: about the asset it names, with its payload and hash. */
  lemma {:induction false} ChangesMean(c: Scope, changes: seq<Json>, k: nat, id: string)
    requires c.timestampNs > 0 && k < |changes| && Collect(ChangeAt(c, changes), |changes|).Some?
    requires changes[k].Object? ==> "asset_id" in changes[k].fields && changes[k].fields["asset_id"] == Text(id)
    ensures changes[k].Object? && ChangePayload(c.h, changes[k].fields).Some?
    ensures var events := Collect(ChangeAt(c, changes), |changes|).value;
            && |events| == |changes| && EventSays(c, events[k], id, ChangePayload(c.h, changes[k].fields).value, k)
            && ("hash" !in changes[k].fields ==> events[k].sourceSequence == TextAt(c.message, "hash"))
            && ("hash" in changes[k].fields ==> events[k].sourceSequence == TextAt(changes[k].fields, "hash"))
  {
    CollectMeans(ChangeAt(c, changes), |changes|);
    assert ChangeAt(c, changes)(k) == Some(Collect(ChangeAt(c, changes), |changes|).value[k]);
    AssetMeans(c.h, changes[k].fields, c.assets, id);
    var payload := ChangePayload(c.h, changes[k].fields).value;
    MadeWellFormed(c, id, "price_change", payload, c.message + changes[k].fields, k);
  }

  /** The known assets of a resolution without a list: exactly those in the table whose market or condition it names. */
  lemma {:induction false} MatchingMeans(f: Fields, assets: Assets, order: seq<string>, id: string)
    ensures id in Matching(f, assets, order) <==>
            && id in order && id in assets
            && ( || TextAt(f, "market") == Some(assets[id].marketId)
                 || TextAt(f, "market") == Some(assets[id].conditionId)
                 || TextAt(f, "condition_id") == Some(assets[id].conditionId))
  {
    if order != [] {
      MatchingMeans(f, assets, order[1..], id);
    }
  }

  lemma {:induction false} TextItemsMean(items: seq<Json>)
    ensures TextItems(items).Some? <==> forall i :: 0 <= i < |items| ==> items[i].Text? && items[i].s != ""
    ensures TextItems(items).Some? ==>
              && |TextItems(items).value| == |items|
              && forall i :: 0 <= i < |items| ==> items[i] == Text(TextItems(items).value[i])
  {
    if items != [] {
      TextItemsMean(items[1..]);
      assert forall i :: 1 <= i < |items| ==> items[i] == items[1..][i - 1];
    }
  }

  /** The list is of known assets. */
  predicate ListsKnown(items: seq<Json>, assets: Assets) {
    forall i :: 0 <= i < |items| ==> items[i].Text? && items[i].s != "" && items[i].s in assets
  }

  /**
   A resolution that lists assets is about exactly those, in that order, and is refused if and only if it lists none
   or one that is unknown. One without a list is about the matching assets, and refused if and only if none match.
   */
  lemma {:induction false} AffectedMeans(f: Fields, assets: Assets, order: seq<string>)
    ensures Get(f, "assets_ids").List? ==>
              var items := Get(f, "assets_ids").items;
              && (Affected(f, assets, order).Some? <==> items != [] && ListsKnown(items, assets))
              && (Affected(f, assets, order).Some? ==>
                    var ids := Affected(f, assets, order).value;
                    |ids| == |items| && forall i :: 0 <= i < |ids| ==> items[i] == Text(ids[i]))
    ensures Get(f, "assets_ids").Null? ==>
              Affected(f, assets, order) ==
              if Matching(f, assets, order) == [] then None else Some(Matching(f, assets, order))
    ensures Affected(f, assets, order).Some? ==> Get(f, "assets_ids").List? || Get(f, "assets_ids").Null?
  {
    if Get(f, "assets_ids").List? {
      TextItemsMean(Get(f, "assets_ids").items);
      ListedKnown(Get(f, "assets_ids").items, assets);
    } else {
      MatchingKnown(f, assets, order);
    }
  }

  lemma {:induction false} ListedKnown(items: seq<Json>, assets: Assets)
    ensures TextItems(items).Some? && AllKnown(TextItems(items).value, assets) <==> ListsKnown(items, assets)
  {
    TextItemsMean(items);
    if TextItems(items).Some? {
      var ids := TextItems(items).value;
      assert forall i :: 0 <= i < |items| ==> items[i] == Text(ids[i]) && items[i].s == ids[i];
    }
  }

  lemma {:induction false} MatchingKnown(f: Fields, assets: Assets, order: seq<string>)
    ensures AllKnown(Matching(f, assets, order), assets)
  {
    forall i | 0 <= i < |Matching(f, assets, order)| ensures Matching(f, assets, order)[i] in assets {
      MatchingMeans(f, assets, order, Matching(f, assets, order)[i]);
    }
  }

  /** A resolution is accepted if and only if it is about some asset; its events are resolutions, one for each. */
  lemma {:induction false} ResolutionMeans(c: Scope, order: seq<string>)
    requires Get(c.message, "event_type") == Text("market_resolved")
    ensures EventsOf(c, order).Some? <==> Affected(c.message, c.assets, order).Some?
    ensures EventsOf(c, order).Some? ==>
              var events, ids := EventsOf(c, order).value, Affected(c.message, c.assets, order).value;
              && |events| == |ids|
              && (forall k :: 0 <= k < |ids| ==>
                    events[k].assetId == Some(ids[k]) && events[k].payload.PolymarketResolved?)
  {
    if Affected(c.message, c.assets, order).Some? {
      var ids := Affected(c.message, c.assets, order).value;
      ResolvedForEach(c, ids, ResolvedPayload(c, ids), |ids|);
    }
  }

  /** The changes of a message: accepted if and only if each is, and then one event, a change, for each. */
  lemma {:induction false} ChangeMessageMeans(c: Scope, order: seq<string>)
    requires Get(c.message, "event_type") == Text("price_change")
    ensures EventsOf(c, order).Some? ==> Get(c.message, "price_changes").List?
    ensures Get(c.message, "price_changes").List? ==>
              var changes := Get(c.message, "price_changes").items;
              && (EventsOf(c, order).Some? <==>
                    changes != [] && forall k :: 0 <= k < |changes| ==> ChangeAt(c, changes)(k).Some?)
              && (EventsOf(c, order).Some? ==> |EventsOf(c, order).value| == |changes|)
    ensures EventsOf(c, order).Some? ==>
              forall k :: 0 <= k < |EventsOf(c, order).value| ==>
                            EventsOf(c, order).value[k].payload.PolymarketPriceChange?
  {
    if Get(c.message, "price_changes").List? {
      var changes := Get(c.message, "price_changes").items;
      CollectMeans(ChangeAt(c, changes), |changes|);
      if EventsOf(c, order).Some? {
        forall k | 0 <= k < |changes| ensures EventsOf(c, order).value[k].payload.PolymarketPriceChange? {
          assert ChangeAt(c, changes)(k) == Some(EventsOf(c, order).value[k]);
          ChangeChecked(c.h, changes[k].fields);
        }
      }
    }
  }

  /** A message of any other kind is a single event, as above. */
  lemma OtherMessageMeans(c: Scope, order: seq<string>, kind: string)
    requires Get(c.message, "event_type") == Text(kind) && kind != "market_resolved" && kind != "price_change"
    ensures EventsOf(c, order) == SingleEvents(c)
    ensures EventsOf(c, order).Some? ==> kind in {"book", "best_bid_ask", "last_trade_price", "tick_size_change"}
  {
  }

  /**
   What a resolution says: the assets it is about, the winning asset and outcome it names (an outcome it does not name
   is that of a known winning asset), and its market and condition, or those of the first asset.
   */
  lemma ResolvedMeans(c: Scope, affected: seq<string>)
    requires affected != [] && affected[0] in c.assets
    ensures var p, winner := ResolvedPayload(c, affected), TextAt(c.message, "winning_asset_id");
            && p.PolymarketResolved? && p.affectedAssetIds == affected && p.winningAssetId == winner
            && (TextAt(c.message, "market").Some? ==> p.marketId == TextAt(c.message, "market"))
            && (TextAt(c.message, "market").None? ==> p.marketId == Some(c.assets[affected[0]].marketId))
            && (TextAt(c.message, "condition_id").Some? ==> p.conditionId == TextAt(c.message, "condition_id"))
            && (TextAt(c.message, "condition_id").None? ==> p.conditionId == Some(c.assets[affected[0]].conditionId))
            && (TextAt(c.message, "winning_outcome").None? ==>
                  p.winningOutcome ==
                  if winner.Some? && winner.value in c.assets then Some(c.assets[winner.value].outcome) else None)
            && (forall text :: TextAt(c.message, "winning_outcome") == Some(text) && c.t.lower(text) == "up" ==>
                  p.winningOutcome == Some(UP))
            && (forall text :: TextAt(c.message, "winning_outcome") == Some(text) && c.t.lower(text) == "down" ==>
                  p.winningOutcome == Some(DOWN))
  {
  }

  /** The numbers an accepted payload carries: prices, trades and tick sizes positive, sides known, nothing negative. */
  predicate Checked(p: Payload) {
    match p
    case PolymarketPriceChange(side, price, quantity, _, _, _) =>
      (side == "BUY" || side == "SELL") && price > 0.0 && quantity >= 0.0
    case PolymarketBestBidAsk(bid, ask, spread) =>
      bid.Some? && ask.Some? && spread.Some? && bid.value >= 0.0 && ask.value >= 0.0 && spread.value >= 0.0
    case PolymarketLastTrade(price, quantity, _, _) => price > 0.0 && quantity > 0.0
    case PolymarketTickSize(from, to) => from > 0.0 && to > 0.0
    case _ => true
  }

  lemma ChangeChecked(h: Host, f: Fields)
    requires ChangePayload(h, f).Some?
    ensures ChangePayload(h, f).value.PolymarketPriceChange? && Checked(ChangePayload(h, f).value)
  {
  }

  /** Whatever kind it is of, an accepted single payload carries checked numbers only. */
  lemma SingleChecked(h: Host, f: Fields, kind: string)
    requires PayloadOf(h, f, kind).Some?
    ensures Checked(PayloadOf(h, f, kind).value)
  {
    if kind == "book" {
      assert BookPayload(h, f).value.PolymarketBook?;
    } else if kind == "best_bid_ask" {
      assert Checked(BestPayload(h, f).value);
    } else if kind == "last_trade_price" {
      assert Checked(LastTradePayload(h, f).value);
    } else {
      assert Checked(TickSizePayload(h, f).value);
    }
  }

  /** The time of a message is its "timestamp" in milliseconds; one that is not positive, or none, is refused. */
  lemma TimestampMeans(h: Host, f: Fields, ms: int)
    requires "timestamp" in f && f["timestamp"] == Int(ms)
    ensures TimestampNs(h, f) == if ms > 0 then Some(ms * 1_000_000) else None
  {
  }
}
