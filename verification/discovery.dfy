/** Market discovery: markets, answers and published snapshots (market_discovery/models.py). Times are microseconds. */
module Discovery {
  import opened Wrappers
  import opened Models

  function DurationUs(tf: Timeframe): int {
    if tf == FIVE_MINUTES then 300_000_000 else 900_000_000
  }

  datatype Market = Market(
    timeframe: Timeframe, marketId: string, conditionId: string, slug: string, startUs: int, endUs: int,
    upTokenId: string, downTokenId: string, resolutionSource: string)

  /** What resolving a market gives; a market that is not found or an error may carry a text. */
  datatype Answer = Found(market: Market) | Missing(error: Option<string>)

  datatype Published = Published(
    atUs: int, state: DiscoveryState, current: Option<Market>, next: Option<Market>,
    expectedUs: int, attempts: nat, lastError: Option<string>)

  datatype TransitionResult = TransitionResult(
    success: bool, previous: Option<Market>, newMarket: Option<Market>, expectedUs: int, searchStartedUs: int,
    resolvedUs: Option<int>, attempts: nat, delayMs: Option<int>, lastError: Option<string>)
  {
    /** The validity rules a result is constructed under. */
    predicate Valid() {
      if success then
        && newMarket.Some? && resolvedUs.Some?
        && delayMs.Some? && delayMs.value >= 0 && lastError.None?
      else
        newMarket.None? && resolvedUs.None? && delayMs.None? && lastError.Some? && lastError.value != ""
    }
  }

  const NOT_FOUND := "market_not_found"

  /** `error or "market_not_found"`. */
  function OrNotFound(error: Option<string>): string {
    if error.Some? && error.value != "" then error.value else NOT_FOUND
  }

  /** What a search for the market starting at `startUs` can be answered with (market_discovery/resolver.py:151-164). */
  predicate Resolves(answer: Answer, tf: Timeframe, startUs: int) {
    answer.Found? ==>
      && answer.market.timeframe == tf
      && answer.market.startUs == startUs && answer.market.endUs == startUs + DurationUs(tf)
      && answer.market.upTokenId != answer.market.downTokenId
  }
}
