/** Window arithmetic and the validation of a Gamma market payload (market_discovery/resolver.py). */
module Resolver {
  import opened Wrappers
  import opened Models
  import opened JsonValues
  import opened Discovery

  const SECOND := 1_000_000
  const EXPECTED_SOURCE := "https://data.chain.link/streams/btc-usd"

  /** Why a payload is not the market asked for. */
  datatype Rejection =
    | BadField(field: string) | WrongSlug | NotTradable | WrongStart | WrongEnd | WrongSlugTime | WrongSource
    | NotTwoEntries | BadOutcome | BadToken | NotUpAndDown | SameTokens

  /** Text functions of the host: `instant` reads an ISO 8601 time with a zone, `urlForm` normalises a URL. */
  datatype Texts = Texts(
    show: Json -> string, strip: string -> string, lower: string -> string, instant: string -> Option<int>,
    load: string -> Option<Json>, urlForm: string -> Option<string>, digits: int -> string,
    message: Rejection -> string)

  /** The whole seconds of a time, truncated toward zero. */
  function WholeSeconds(us: int): int {
    if us >= 0 then us / SECOND else -(-us / SECOND)
  }

  function FloorToWindow(us: int, tf: Timeframe): int {
    var epoch := WholeSeconds(us);
    (epoch - epoch % (DurationUs(tf) / SECOND)) * SECOND
  }

  lemma SecondsAround(us: int)
    requires us >= 0
    ensures WholeSeconds(us) * SECOND <= us < (WholeSeconds(us) + 1) * SECOND
  {
  }

  lemma FiveMinuteFloor(epoch: int)
    ensures var start := (epoch - epoch % 300) * SECOND;
            start % 300_000_000 == 0 && start <= epoch * SECOND && epoch * SECOND + SECOND <= start + 300_000_000
  {
    assert epoch - epoch % 300 == epoch / 300 * 300;
  }

  lemma FifteenMinuteFloor(epoch: int)
    ensures var start := (epoch - epoch % 900) * SECOND;
            start % 900_000_000 == 0 && start <= epoch * SECOND && epoch * SECOND + SECOND <= start + 900_000_000
  {
    assert epoch - epoch % 900 == epoch / 900 * 900;
  }

  /** A window starts at a multiple of its length, and a time from 1970 on falls into the window found for it. */
  lemma WindowContains(us: int, tf: Timeframe)
    ensures FloorToWindow(us, tf) % DurationUs(tf) == 0
    ensures us >= 0 ==> FloorToWindow(us, tf) <= us < FloorToWindow(us, tf) + DurationUs(tf)
  {
    FiveMinuteFloor(WholeSeconds(us));
    FifteenMinuteFloor(WholeSeconds(us));
    if us >= 0 {
      SecondsAround(us);
    }
  }

  function SlugFor(t: Texts, tf: Timeframe, startUs: int): string {
    (if tf == FIVE_MINUTES then "btc-updown-5m" else "btc-updown-15m") + "-" + t.digits(WholeSeconds(startUs))
  }

  /** The slug of a window that starts on a whole second names the length of the window and that second. */
  lemma SlugMeans(t: Texts, second: nat)
    ensures SlugFor(t, FIVE_MINUTES, second * SECOND) == "btc-updown-5m-" + t.digits(second)
    ensures SlugFor(t, FIFTEEN_MINUTES, second * SECOND) == "btc-updown-15m-" + t.digits(second)
  {
    assert WholeSeconds(second * SECOND) == second;
    assert "btc-updown-5m" + "-" == "btc-updown-5m-" && "btc-updown-15m" + "-" == "btc-updown-15m-";
  }

  function RequiredId(t: Texts, f: Fields, field: string): Result<string, Rejection> {
    var j := Get(f, field);
    if !j.Text? && !j.Int? then Err(BadField(field))
    else
      var text := t.strip(if j.Text? then j.s else t.show(j));
      if text == "" then Err(BadField(field)) else Ok(text)
  }

  function InstantAt(t: Texts, f: Fields, field: string): Result<int, Rejection> {
    var j := Get(f, field);
    if !j.Text? || t.strip(j.s) == "" then Err(BadField(field))
    else if t.instant(t.strip(j.s)).None? then Err(BadField(field))
    else Ok(t.instant(t.strip(j.s)).value)
  }

  /** A list, or a text that loads as one. */
  function ListAt(t: Texts, f: Fields, field: string): Result<seq<Json>, Rejection> {
    var j := Get(f, field);
    var value := if j.Text? then t.load(j.s) else Some(j);
    if value.None? then Err(BadField(field))
    else if !value.value.List? then Err(BadField(field))
    else Ok(value.value.items)
  }

  function SourceAt(t: Texts, f: Fields): Result<string, Rejection> {
    var j := Get(f, "resolutionSource");
    if !j.Text? || t.strip(j.s) == "" then Err(BadField("resolutionSource"))
    else if t.urlForm(t.strip(j.s)).None? then Err(BadField("resolutionSource"))
    else Ok(t.urlForm(t.strip(j.s)).value)
  }

  // The outcomes and their tokens.

  datatype Pair = Pair(outcome: string, token: string)

  function PairFrom(t: Texts, outcome: Json, token: Json): Result<Pair, Rejection> {
    if !outcome.Text? || t.lower(t.strip(outcome.s)) !in {"up", "down"} then Err(BadOutcome)
    else if !token.Text? || t.strip(token.s) == "" then Err(BadToken)
    else Ok(Pair(t.lower(t.strip(outcome.s)), t.strip(token.s)))
  }

  /** The pairs of the first `n` entries of both lists, or the first failure among them. */
  function PairsUpTo(t: Texts, outcomes: seq<Json>, tokens: seq<Json>, n: nat): Result<seq<Pair>, Rejection>
    requires n <= |outcomes| == |tokens|
  {
    if n == 0 then Ok([])
    else
      var front :- PairsUpTo(t, outcomes, tokens, n - 1);
      var last :- PairFrom(t, outcomes[n - 1], tokens[n - 1]);
      Ok(front + [last])
  }

  method ReadPairs(t: Texts, outcomes: seq<Json>, tokens: seq<Json>) returns (r: Result<seq<Pair>, Rejection>)
    requires |outcomes| == |tokens|
    ensures r == PairsUpTo(t, outcomes, tokens, |outcomes|)
  {
    var pairs: seq<Pair> := [];
    for i := 0 to |outcomes|
      invariant PairsUpTo(t, outcomes, tokens, i) == Ok(pairs)
    {
      var pair := PairFrom(t, outcomes[i], tokens[i]);
      if pair.Err? {
        UpToFails(t, outcomes, tokens, i + 1, |outcomes|);
        return Err(pair.error);
      }
      pairs := pairs + [pair.value];
    }
    r := Ok(pairs);
  }

  lemma {:induction false} UpToFails(t: Texts, outcomes: seq<Json>, tokens: seq<Json>, i: nat, n: nat)
    requires i <= n <= |outcomes| == |tokens| && PairsUpTo(t, outcomes, tokens, i).Err?
    ensures PairsUpTo(t, outcomes, tokens, n) == PairsUpTo(t, outcomes, tokens, i)
  {
    if i < n {
      UpToFails(t, outcomes, tokens, i, n - 1);
    }
  }

  /** The tokens of "up" and "down", when two pairs name each once with different tokens. */
  function TokensFrom(pairs: seq<Pair>): Result<(string, string), Rejection>
    requires |pairs| == 2
  {
    if {pairs[0].outcome, pairs[1].outcome} != {"up", "down"} then Err(NotUpAndDown)
    else if pairs[0].token == pairs[1].token then Err(SameTokens)
    else if pairs[0].outcome == "up" then Ok((pairs[0].token, pairs[1].token))
    else Ok((pairs[1].token, pairs[0].token))
  }

  predicate Tradable(f: Fields) {
    && Get(f, "active") == Bool(true) && Get(f, "closed") != Bool(true) && Get(f, "archived") != Bool(true)
    && Get(f, "enableOrderBook") == Bool(true)
  }

  /** The field cannot be read as what it should be. */
  predicate Unreadable(t: Texts, f: Fields, field: string) {
    RequiredId(t, f, field).Err? || InstantAt(t, f, field).Err? || ListAt(t, f, field).Err?
    || (field == "resolutionSource" && SourceAt(t, f).Err?)
  }

  /** The reason given names a demand that the payload does not meet. */
  predicate Rejects(t: Texts, f: Fields, tf: Timeframe, startUs: int, slug: string, why: Rejection) {
    match why
    case BadField(field) => Unreadable(t, f, field)
    case WrongSlug => Get(f, "slug") != Text(slug)
    case NotTradable => !Tradable(f)
    case WrongStart => InstantAt(t, f, "eventStartTime") != Ok(startUs)
    case WrongEnd => InstantAt(t, f, "endDate") != Ok(startUs + DurationUs(tf))
    case WrongSlugTime => SlugFor(t, tf, startUs) != slug
    case WrongSource => SourceAt(t, f) != Ok(EXPECTED_SOURCE)
    case _ => !TwoSides(t, f)
  }

  /** The beginning of the validation: ids, slug and the market's flags. */
  method ReadIdentity(t: Texts, f: Fields, slug: string, ghost tf: Timeframe, ghost startUs: int)
    returns (r: Result<(string, string), Rejection>)
    ensures r.Ok? <==> RequiredId(t, f, "id").Ok? && RequiredId(t, f, "conditionId").Ok?
                       && Get(f, "slug") == Text(slug) && Tradable(f)
    ensures r.Ok? ==> Ok(r.value.0) == RequiredId(t, f, "id") && Ok(r.value.1) == RequiredId(t, f, "conditionId")
    ensures r.Err? ==> Rejects(t, f, tf, startUs, slug, r.error)
  {
    var marketId :- RequiredId(t, f, "id");
    var conditionId :- RequiredId(t, f, "conditionId");
    if Get(f, "slug") != Text(slug) {
      return Err(WrongSlug);
    }
    if !Tradable(f) {
      return Err(NotTradable);
    }
    r := Ok((marketId, conditionId));
  }

  /** The middle of it: start, end and the time in the slug. */
  method CheckTimes(t: Texts, f: Fields, tf: Timeframe, startUs: int, slug: string) returns (r: Result<(), Rejection>)
    ensures r.Ok? <==> InstantAt(t, f, "eventStartTime") == Ok(startUs)
                       && InstantAt(t, f, "endDate") == Ok(startUs + DurationUs(tf)) && SlugFor(t, tf, startUs) == slug
    ensures r.Err? ==> Rejects(t, f, tf, startUs, slug, r.error)
  {
    var start :- InstantAt(t, f, "eventStartTime");
    var end :- InstantAt(t, f, "endDate");
    if start != startUs {
      return Err(WrongStart);
    }
    if end != startUs + DurationUs(tf) {
      return Err(WrongEnd);
    }
    if SlugFor(t, tf, start) != slug {
      return Err(WrongSlugTime);
    }
    r := Ok(());
  }

  method ValidateMarketPayload(t: Texts, f: Fields, tf: Timeframe, startUs: int, slug: string)
    returns (r: Result<Market, Rejection>)
    ensures r.Ok? <==> Acceptable(t, f, tf, startUs, slug)
    ensures r.Ok? ==> IsMarketOf(t, f, tf, startUs, slug, r.value)
    ensures r.Err? ==> Rejects(t, f, tf, startUs, slug, r.error)
  {
    var ids :- ReadIdentity(t, f, slug, tf, startUs);
    var _ :- CheckTimes(t, f, tf, startUs, slug);
    var source :- ReadSource(t, f, slug, tf, startUs);
    var sides :- ReadSides(t, f, slug, tf, startUs);
    r := Ok(Market(tf, ids.0, ids.1, slug, startUs, startUs + DurationUs(tf), sides.0, sides.1, source));
  }

  method ReadSource(t: Texts, f: Fields, ghost slug: string, ghost tf: Timeframe, ghost startUs: int)
    returns (r: Result<string, Rejection>)
    ensures r.Ok? <==> SourceAt(t, f) == Ok(EXPECTED_SOURCE)
    ensures r.Ok? ==> r.value == EXPECTED_SOURCE
    ensures r.Err? ==> Rejects(t, f, tf, startUs, slug, r.error)
  {
    var source :- SourceAt(t, f);
    if source != EXPECTED_SOURCE {
      return Err(WrongSource);
    }
    r := Ok(source);
  }

  /** A reason that speaks of the outcomes and tokens. */
  predicate OfSides(why: Rejection) {
    why.NotTwoEntries? || why.BadOutcome? || why.BadToken? || why.NotUpAndDown? || why.SameTokens?
  }

  /** The end of the validation: the tokens of the two sides. */
  method ReadSides(t: Texts, f: Fields, ghost slug: string, ghost tf: Timeframe, ghost startUs: int)
    returns (r: Result<(string, string), Rejection>)
    ensures r.Ok? <==> TwoSides(t, f)
    ensures r.Ok? ==> SidesAre(t, f, r.value.0, r.value.1)
    ensures r.Err? ==> Rejects(t, f, tf, startUs, slug, r.error)
  {
    var outcomes :- ListAt(t, f, "outcomes");
    var tokens :- ListAt(t, f, "clobTokenIds");
    if |outcomes| != 2 || |tokens| != 2 {
      return Err(NotTwoEntries);
    }
    var pairs := ReadPairs(t, outcomes, tokens);
    TwoPairs(t, outcomes, tokens);
    if pairs.Err? {
      return Err(pairs.error);
    }
    r := TokensFrom(pairs.value);
  }

  /** Each side's token is the one listed beside its outcome. */
  predicate SidesAre(t: Texts, f: Fields, up: string, down: string)
    requires TwoSides(t, f)
  {
    var outcomes, tokens := ListAt(t, f, "outcomes").value, ListAt(t, f, "clobTokenIds").value;
    && up != down
    && (forall i :: 0 <= i < 2 ==>
          PairFrom(t, outcomes[i], tokens[i]) == Ok(Pair("up", up)) ||
          PairFrom(t, outcomes[i], tokens[i]) == Ok(Pair("down", down)))
  }

  /** Both lists have two entries, and these pair "up" and "down" with two different tokens. */
  predicate TwoSides(t: Texts, f: Fields) {
    && ListAt(t, f, "outcomes").Ok? && ListAt(t, f, "clobTokenIds").Ok?
    && var outcomes, tokens := ListAt(t, f, "outcomes").value, ListAt(t, f, "clobTokenIds").value;
       && |outcomes| == 2 && |tokens| == 2
       && var a, b := PairFrom(t, outcomes[0], tokens[0]), PairFrom(t, outcomes[1], tokens[1]);
          && a.Ok? && b.Ok? && a.value.outcome != b.value.outcome && a.value.token != b.value.token
  }

  /** What is demanded of a payload before it is taken for the market that starts at `startUs`. */
  predicate Acceptable(t: Texts, f: Fields, tf: Timeframe, startUs: int, slug: string) {
    && RequiredId(t, f, "id").Ok? && RequiredId(t, f, "conditionId").Ok?
    && Get(f, "slug") == Text(slug) && slug == SlugFor(t, tf, startUs) && Tradable(f)
    && InstantAt(t, f, "eventStartTime") == Ok(startUs) && InstantAt(t, f, "endDate") == Ok(startUs + DurationUs(tf))
    && SourceAt(t, f) == Ok(EXPECTED_SOURCE) && TwoSides(t, f)
  }

  /** The market read from the payload: the right window, and each side's token the one listed beside it. */
  predicate IsMarketOf(t: Texts, f: Fields, tf: Timeframe, startUs: int, slug: string, m: Market)
    requires Acceptable(t, f, tf, startUs, slug)
  {
    && m.timeframe == tf && m.slug == slug && m.startUs == startUs && m.endUs == startUs + DurationUs(tf)
    && Ok(m.marketId) == RequiredId(t, f, "id") && Ok(m.conditionId) == RequiredId(t, f, "conditionId")
    && m.resolutionSource == EXPECTED_SOURCE && SidesAre(t, f, m.upTokenId, m.downTokenId)
  }

  lemma {:induction false} TwoPairs(t: Texts, outcomes: seq<Json>, tokens: seq<Json>)
    requires |outcomes| == 2 && |tokens| == 2
    ensures var a, b := PairFrom(t, outcomes[0], tokens[0]), PairFrom(t, outcomes[1], tokens[1]);
            && (PairsUpTo(t, outcomes, tokens, 2).Ok? <==> a.Ok? && b.Ok?)
            && (a.Ok? && b.Ok? ==> PairsUpTo(t, outcomes, tokens, 2) == Ok([a.value, b.value]))
    ensures PairsUpTo(t, outcomes, tokens, 2).Err? ==> OfSides(PairsUpTo(t, outcomes, tokens, 2).error)
  {
    var a := PairFrom(t, outcomes[0], tokens[0]);
    assert PairsUpTo(t, outcomes, tokens, 0) == Ok([]);
    assert a.Ok? ==> [] + [a.value] == [a.value] && PairsUpTo(t, outcomes, tokens, 1) == Ok([a.value]);
    assert a.Err? ==> PairsUpTo(t, outcomes, tokens, 1) == Err(a.error);
    var b := PairFrom(t, outcomes[1], tokens[1]);
    assert a.Ok? && b.Ok? ==> [a.value] + [b.value] == [a.value, b.value];
  }

  /** The payload says what the market is, its times as texts, the up side listed first or last. */
  predicate SaysMarket(f: Fields, m: Market, start: string, end: string, upFirst: bool) {
    && Get(f, "id") == Text(m.marketId) && Get(f, "conditionId") == Text(m.conditionId)
    && Get(f, "slug") == Text(m.slug) && Get(f, "active") == Bool(true) && Get(f, "enableOrderBook") == Bool(true)
    && Get(f, "closed") != Bool(true) && Get(f, "archived") != Bool(true)
    && Get(f, "eventStartTime") == Text(start) && Get(f, "endDate") == Text(end)
    && Get(f, "resolutionSource") == Text(m.resolutionSource)
    && Get(f, "outcomes") == List(if upFirst then [Text("Up"), Text("Down")] else [Text("Down"), Text("Up")])
    && Get(f, "clobTokenIds") == List(if upFirst then [Text(m.upTokenId), Text(m.downTokenId)]
                                      else [Text(m.downTokenId), Text(m.upTokenId)])
  }

  /** A text with something in it and nothing to strip. */
  predicate Bare(t: Texts, s: string) {
    s != "" && t.strip(s) == s
  }

  /** The market is one that a payload can say, with its times written as `start` and `end`. */
  predicate Payable(t: Texts, m: Market, start: string, end: string) {
    && Bare(t, m.marketId) && Bare(t, m.conditionId) && m.slug == SlugFor(t, m.timeframe, m.startUs)
    && Bare(t, start) && t.instant(start) == Some(m.startUs)
    && Bare(t, end) && t.instant(end) == Some(m.endUs) && m.endUs == m.startUs + DurationUs(m.timeframe)
    && Bare(t, m.upTokenId) && Bare(t, m.downTokenId) && m.upTokenId != m.downTokenId
    && m.resolutionSource == EXPECTED_SOURCE
    && Bare(t, EXPECTED_SOURCE) && t.urlForm(EXPECTED_SOURCE) == Some(EXPECTED_SOURCE)
    && Bare(t, "Up") && t.lower("Up") == "up" && Bare(t, "Down") && t.lower("Down") == "down"
  }

  lemma SidesReadBack(t: Texts, f: Fields, m: Market, start: string, end: string, upFirst: bool)
    requires Payable(t, m, start, end) && SaysMarket(f, m, start, end, upFirst)
    ensures TwoSides(t, f)
    ensures forall up, down :: SidesAre(t, f, up, down) ==> up == m.upTokenId && down == m.downTokenId
  {
    var outcomes, tokens := ListAt(t, f, "outcomes").value, ListAt(t, f, "clobTokenIds").value;
    var up, down := if upFirst then 0 else 1, if upFirst then 1 else 0;
    assert PairFrom(t, outcomes[up], tokens[up]) == Ok(Pair("up", m.upTokenId));
    assert PairFrom(t, outcomes[down], tokens[down]) == Ok(Pair("down", m.downTokenId));
  }

  /** Such a payload is accepted, and the market read from it is that very market, whichever side comes first. */
  lemma MarketReadsBack(t: Texts, f: Fields, m: Market, start: string, end: string, upFirst: bool)
    requires Payable(t, m, start, end) && SaysMarket(f, m, start, end, upFirst)
    ensures Acceptable(t, f, m.timeframe, m.startUs, m.slug)
    ensures forall read :: IsMarketOf(t, f, m.timeframe, m.startUs, m.slug, read) ==> read == m
  {
    SidesReadBack(t, f, m, start, end, upFirst);
  }

  /**
   An accepted payload is of a market that is active, neither closed nor archived, and has its order book enabled;
   the market read from it has ids and tokens that are not empty.
   */
  lemma AcceptedMeans(t: Texts, f: Fields, tf: Timeframe, startUs: int, slug: string, m: Market)
    requires Acceptable(t, f, tf, startUs, slug) && IsMarketOf(t, f, tf, startUs, slug, m)
    ensures Get(f, "active") == Bool(true) && Get(f, "enableOrderBook") == Bool(true)
    ensures Get(f, "closed") != Bool(true) && Get(f, "archived") != Bool(true)
    ensures m.marketId != "" && m.conditionId != "" && m.upTokenId != "" && m.downTokenId != ""
  {
    var outcomes, tokens := ListAt(t, f, "outcomes").value, ListAt(t, f, "clobTokenIds").value;
    assert PairFrom(t, outcomes[0], tokens[0]).value.token != "";
    assert PairFrom(t, outcomes[1], tokens[1]).value.token != "";
  }

  /** What the HTTP client gives for a slug. */
  datatype Fetched = Payload(fields: Fields) | Absent | Unavailable(message: string)

  method ResolveMarket(t: Texts, fetched: Fetched, tf: Timeframe, startUs: int) returns (answer: Answer)
    ensures Resolves(answer, tf, startUs)
    ensures answer.Found? <==> fetched.Payload? && Acceptable(t, fetched.fields, tf, startUs, SlugFor(t, tf, startUs))
    ensures answer.Found? ==> IsMarketOf(t, fetched.fields, tf, startUs, SlugFor(t, tf, startUs), answer.market)
    ensures fetched.Absent? ==> answer == Missing(None)
    ensures fetched.Unavailable? ==> answer == Missing(Some(fetched.message))
    ensures fetched.Payload? && answer.Missing? ==>
              exists why :: answer == Missing(Some(t.message(why))) &&
                Rejects(t, fetched.fields, tf, startUs, SlugFor(t, tf, startUs), why)
  {
    match fetched {
      case Absent => answer := Missing(None);
      case Unavailable(message) => answer := Missing(Some(message));
      case Payload(fields) =>
        var market := ValidateMarketPayload(t, fields, tf, startUs, SlugFor(t, tf, startUs));
        answer := if market.Ok? then Found(market.value) else Missing(Some(t.message(market.error)));
    }
  }
}
