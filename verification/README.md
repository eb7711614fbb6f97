# Market-data gateway: a verified model

The repository is an event-sourced gateway for Bitcoin market data. Every input becomes a numbered event;
the bus hands each event to a live reducer and to durable storage; stored events can be replayed through
the same reducer; a discovery worker and a subscription manager decide which prediction markets are live.
This project models those parts and proves what they keep over whole runs.

- **Durable log.** `Lines` cuts newline-terminated bytes, `RawFiles` is the file tree (one slot of six
  files for each segment), `RawStorage` writes, rotates and finalises, `RawLog` holds its invariant and the
  round trip, `Replay` and `Merge` read back, `Recovery` repairs what a crash leaves.
- **Fan-out.** `EventBus` is the bounded bus as steps between awaits.
- **Live state.** `Rolling` and `OrderBook` are the windows and books, `LiveState` one event's effect,
  `StateStore` the object that keeps the state in place, `StateInvariants` what holds of every reachable
  state, `StateHistory` what a state says of the events it was made of, `Snapshots` the snapshot and its
  readiness verdict, `Reducer` the agreement of live and replay.
- **Codec.** `JsonValues` and `EventJson` turn events into JSON values and back.
- **Discovery.** `Resolver` validates a market, `Transition` is one timed two-task search, `Worker` the
  sequence of searches of one timeframe.
- **CLOB source.** `ClobParser` parses messages, `Subscriptions` keeps the set bookkeeping.
- **End to end.** `Pipeline` chains bus, storage, codec, replay and reducer into one statement.

Objects that the source updates in place are classes whose methods are proved equal to a step function;
protocols are step systems whose runs are all interleavings at awaits. Decimal numbers are exact reals.
A codec is only required to be lossless on the events it can store (schema 2, decimals it can write).

## Where code and documentation differ

The code is followed. Each difference has a lemma.

- `docs/data_collection/market_data.md` asks for a full book after three divergences; a price change is
  enough (`StateInvariants.PriceChangeLiftsLock`), though the lock is back with the next mismatch
  (`StateInvariants.LiftedLockReturns`).
- It asks for both markets before a snapshot is ready; one is enough (`Snapshots.OneMarketSuffices`).
- `snapshot()` looks like a read but makes the windows forget. Exactly when an extra read changes a later tick
  is `Reducer.ExtraReadExact`, for one window `Rolling.ExtraReadShows`.
- A segment whose first event is numbered 0 fails its own check (`RawLog.FirstNumberZero`). Numbering starts
  at 1, so the round trip is stated from 1 on.
- A partial compressed file left by a crash makes recovery quarantine the JSONL file instead of retrying
  (`Recovery.CompressedPartialLeft`); what is then left to replay is `Recovery.InterruptedCopyRecovers`.
- Recovery itself can raise, exactly in the case of `Recovery.RaisesIff`.

## Model

| member | source | states |
|---|---|---|
| `Lines.TornTail` | src/polymarket_btc/data_collection/market_data/storage.py:371-380 | bytes torn anywhere out of a run of encoded events cut into exactly the lines of the longest prefix of whole events, and those decode to that prefix |
| `Lines.WholeRecordsLongest` | src/polymarket_btc/data_collection/market_data/storage.py:371-380 | the prefix kept is the longest one whose encoding fits in the torn bytes |
| `Lines.ScanJsonl` | src/polymarket_btc/data_collection/market_data/storage.py:274-300 | the scanning loop of a raw file gives its count, first and last number, or fails exactly where a line does not decode or, when required, is not terminated |
| `Lines.ScannedWhole` | src/polymarket_btc/data_collection/market_data/storage.py:71-112 | scanning the encoding of a run gives that run's own count, first and last number |
| `RawStorage.RawEventStorage.OpenSegment` | src/polymarket_btc/data_collection/market_data/storage.py:143-156 | the partial file is created exclusively and its segment entered in the table; where it exists already nothing changes |
| `RawStorage.RawEventStorage.Write` | src/polymarket_btc/data_collection/market_data/storage.py:158-182 | one write rotates exactly when the segment is non-empty and the size or time limit is reached, appends one line, and keeps the counters; a rotation that cannot open the next segment leaves the finalised one in the table; the whole new store is stated |
| `RawStorage.WriteMeans` | src/polymarket_btc/data_collection/market_data/storage.py:158-182 | a write that succeeds finalises exactly a segment that is due: not empty, and at its time limit or made too large by the line; then the line is the whole of a new segment's file, otherwise it is added at the end of the open one's |
| `RawStorage.RawEventStorage.FinalizeSegment` | src/polymarket_btc/data_collection/market_data/storage.py:190-242 | finalisation passes through the stages of the crash analysis one after the other and ends in the state the specification gives, or stops with the specified error |
| `RawStorage.RawEventStorage.Close` | src/polymarket_btc/data_collection/market_data/storage.py:244-252 | close finalises every open segment that holds an event, drops the others' files and stops at the first failure |
| `RawStorage.CloseMeans` | src/polymarket_btc/data_collection/market_data/storage.py:244-252 | a close without an error leaves nothing open: a segment that held an event has its compressed file and manifest, one that did not has lost its empty file, and no other file is touched |
| `RawLog.WriteKeeps` | src/polymarket_btc/data_collection/market_data/storage.py:158-182 | the next event of a run is written without an error and keeps the invariant of the store: files match counters, segments of one stream follow one another and respect the rotation size, and together they hold exactly the events written |
| `RawLog.FinishKeeps` | src/polymarket_btc/data_collection/market_data/storage.py:190-242 | finalising an open segment under the invariant never fails the comparison of the compressed copy with the counters |
| `RawLog.LogRoundTrip` | src/polymarket_btc/data_collection/market_data/storage.py:143-252 | for any run numbered n, n+1, ... with n >= 1, any sources, streams, hours and rotations: every write and the close succeed, and replay in any listing order gives exactly that run with no integrity error |
| `RawLog.SegmentSizes` | src/polymarket_btc/data_collection/market_data/storage.py:163-171 | every finalised segment is at most the rotation size uncompressed or holds one event |
| `RawLog.FirstNumberZero` | src/polymarket_btc/data_collection/market_data/storage.py:178 | with the counters `write` keeps, finalisation succeeds exactly when the first event is not numbered 0 or all are: `first or n` mistakes 0 for missing |
| `Replay.IterateSegment` | src/polymarket_btc/data_collection/market_data/replay.py:36-67 | iterating a segment yields its events and then the first integrity error of the specification: missing file, hash, broken line, decompression, count, bounds |
| `Replay.SettledReadsBack` | src/polymarket_btc/data_collection/market_data/replay.py:36-67 | a finished segment reads back as its events with no error |
| `Replay.DamageReported` | src/polymarket_btc/data_collection/market_data/replay.py:36-67 | a segment reads without an integrity error if and only if its file is there, is the one the manifest is for, decodes to its end and has the manifest's count and bounds; a file that is not the manifest's yields nothing, any other the events before its first broken line |
| `Replay.OtherFileNoticed` | src/polymarket_btc/data_collection/market_data/replay.py:36-44 | any other file in place of a finished segment's, or none, is noticed before an event is read |
| `Replay.OtherManifestNoticed` | src/polymarket_btc/data_collection/market_data/replay.py:36-67 | any other manifest in place of a finished segment's is noticed |
| `Replay.IterateChain` | src/polymarket_btc/data_collection/market_data/replay.py:77-90 | the loop over a stream's segments yields what the specification of the chain gives, up to its first overlap or segment error |
| `Replay.ChainsInOrder` | src/polymarket_btc/data_collection/market_data/replay.py:77-90 | segments that follow one another in number chain to their concatenation without an error |
| `Replay.ChainOnlyInOrder` | src/polymarket_btc/data_collection/market_data/replay.py:77-90 | conversely, a chain that ends without an error is increasing from end to end and past the last number given |
| `Replay.ChainLongest` | src/polymarket_btc/data_collection/market_data/replay.py:77-90 | a chain of readable segments, in order or not, yields the longest beginning of all their events that increases, and ends with an error if and only if that is not all of them |
| `Replay.ReadRaw` | src/polymarket_btc/data_collection/market_data/replay.py:120-130 | the reading method, which groups manifests by directory and opens a chain for each, merges exactly the specified streams |
| `Replay.ArchiveReadsBack` | src/polymarket_btc/data_collection/market_data/replay.py:70-130 | whatever order the directory walk gives, an archive whose parts make up one consecutive run reads back as exactly that run |
| `Replay.ArchiveCompletesIff` | src/polymarket_btc/data_collection/market_data/replay.py:70-130 | an archive reads to the end without an integrity error if and only if its events are one consecutive run |
| `Merge.MergeRawStreams` | src/polymarket_btc/data_collection/market_data/replay.py:93-117 | the heap merge yields what the specification of the merge gives: the least head each time, up to the first gap, duplicate or stream error |
| `Merge.YieldsConsecutive` | src/polymarket_btc/data_collection/market_data/replay.py:102-112 | for arbitrary streams whatever is yielded before an error is a consecutive run |
| `Merge.MergesRun` | src/polymarket_btc/data_collection/market_data/replay.py:93-117 | a run split between increasing streams, in any way and order, is put back together |
| `Merge.CompletesIffOneRun` | src/polymarket_btc/data_collection/market_data/replay.py:93-117 | increasing streams merge to the end if and only if some consecutive run is split between them, and then the merge is that run |
| `Merge.MergeStops` | src/polymarket_btc/data_collection/market_data/replay.py:93-117 | a merge of increasing streams starts at the least number held and stops with an error only where the next number is held by none while a later one is, or the last is held twice; the error names both numbers |
| `Recovery.CrashRecovers` | src/polymarket_btc/data_collection/market_data/storage.py:190-242 | a crash between any two finalisation steps that leaves no partial compressed file is repaired: the events are replayed exactly once, nothing is quarantined, and a second recovery changes nothing |
| `Recovery.CompressedPartialLeft` | src/polymarket_btc/data_collection/market_data/storage.py:200 | with a partial compressed file left behind the retry's exclusive open fails; the whole JSONL file is then in quarantine, and a manifest stands only beside a compressed file that was already there |
| `Recovery.InterruptedCopyRecovers` | src/polymarket_btc/data_collection/market_data/storage.py:418-446 | an interrupted copy that holds a beginning of the bytes: the whole JSONL is in quarantine, and the raw tree reads as the whole events of a copy ending after a newline, else as what had been published before |
| `Recovery.RaisesIff` | src/polymarket_btc/data_collection/market_data/storage.py:366-393 | a segment makes recovery raise if and only if a partial JSONL with a whole record, all of whose lines decode, meets a partial compressed file |
| `Recovery.CutShortRetryRaises` | src/polymarket_btc/data_collection/market_data/storage.py:415-429 | a recovery cut short right after renaming the JSONL back sets that up: the next one raises and restores the files of the first crash, which the one after repairs |
| `Recovery.TornAppendRecovers` | src/polymarket_btc/data_collection/market_data/storage.py:366-393 | a partial file torn anywhere recovers to a finished segment of exactly its whole events, or disappears when there is none |
| `Recovery.PartialKept` | src/polymarket_btc/data_collection/market_data/storage.py:366-393 | a partial file in any state: with a broken whole line its bytes are in quarantine; without one its whole records become a finished segment |
| `Recovery.OrphanKept` | src/polymarket_btc/data_collection/market_data/storage.py:415-429 | a JSONL file without a manifest in any state: the same, but its whole records are in quarantine where a partial compressed file stands in the way |
| `Recovery.CompressedKept` | src/polymarket_btc/data_collection/market_data/storage.py:430-446 | a compressed file by itself gets the manifest of its own events if it reads to its end and holds one, and else is quarantined |
| `Recovery.CompressedPartialKept` | src/polymarket_btc/data_collection/market_data/storage.py:424-441 | a partial compressed file by itself is published with the manifest of its own events on the same terms, and else quarantined |
| `Recovery.CompressedOverOld` | src/polymarket_btc/data_collection/market_data/storage.py:424-466 | beside a manifest, a partial compressed file that can be read takes the compressed file's place, and the old manifest stays only if it is for that one |
| `Recovery.ManifestKept` | src/polymarket_btc/data_collection/market_data/storage.py:447-466 | a manifest that is not for the file beside it is quarantined and the file stays; one that is stays too |
| `Recovery.PartialManifestKept` | src/polymarket_btc/data_collection/market_data/storage.py:443-455 | a partial manifest takes its place when it is for the compressed file beside it, and else is quarantined |
| `Recovery.DataDirectory.RunPass` | src/polymarket_btc/data_collection/market_data/storage.py:405-466 | one pass over the tree in listing order does to every segment what that pass does to it, and stops where a step raises |
| `Recovery.DataDirectory.RecoverPartialFiles` | src/polymarket_btc/data_collection/market_data/storage.py:396-466 | the six raw passes in order, ending with the first that raises |
| `Recovery.RecoversEverySegment` | src/polymarket_btc/data_collection/market_data/storage.py:396-466 | recovery of the tree is recovery of each segment by itself, and the quarantine gains exactly what those moved there |
| `Recovery.RecoveryCleans` | src/polymarket_btc/data_collection/market_data/storage.py:405-466 | whatever files it starts from, recovery that does not raise leaves no partial file and a manifest only beside the compressed file it describes |
| `Recovery.CrashRecoverReplay` | src/polymarket_btc/data_collection/market_data/storage.py:366-466 | a process crashes while writing, every open segment torn or caught in any finalisation step, interrupted compressed copies included: recovery never raises and loses nothing (where an interrupted copy stood in the way the whole JSONL is in quarantine, elsewhere nothing is), and surviving events that form a run are replayed as exactly that run |
| `Recovery.CrashGapReported` | src/polymarket_btc/data_collection/market_data/replay.py:107-110 | after such a recovery replay finishes without an integrity error if and only if the surviving events are one consecutive run |
| `EventBus.PublishingBus.TryPut` | src/polymarket_btc/data_collection/market_data/event_bus.py:41-55 | one pass of the waiting loop puts on both queues or on neither, never on a full one |
| `EventBus.PublishingBus.Publish` | src/polymarket_btc/data_collection/market_data/event_bus.py:37-43 | the number is taken before the wait |
| `EventBus.PublishingBus.Perform` | src/polymarket_btc/data_collection/market_data/event_bus.py:30-69 | whatever happens on the bus between two awaits changes it as one step of the system that the fan-out results are about |
| `EventBus.FanOut` | src/polymarket_btc/data_collection/market_data/event_bus.py:30-55 | in every interleaving taken plus queued is the same sequence on both sides, no queue exceeds its capacity, and the numbers are consecutive while no publisher has given up |
| `EventBus.LostNumbersAreHoles` | src/polymarket_btc/data_collection/market_data/event_bus.py:38-46 | a publisher that times out or is cancelled loses its number for good: published numbers still increase, skip it, and every number given out is accounted for |
| `EventBus.HighWater` | src/polymarket_btc/data_collection/market_data/event_bus.py:47-54 | the two high-water marks are exactly the most that either queue ever held |
| `EventBus.ClosedIff` | src/polymarket_btc/data_collection/market_data/event_bus.py:34-36 | the bus is closed if and only if it was closed at some point |
| `Rolling.RollingAccumulator.AddTrade` | src/polymarket_btc/data_collection/market_data/state.py:95-103 | adding a trade keeps the running sums equal to the sums over the rows held, which are those not too old for the trade's own time |
| `Rolling.RollingAccumulator.ExpireRows` | src/polymarket_btc/data_collection/market_data/state.py:105-114 | expiry drops exactly the leading too-old rows, and what it subtracts leaves the sums over the rest |
| `Rolling.RollingAccumulator.Snapshot` | src/polymarket_btc/data_collection/market_data/state.py:116-123 | a read expires first, and shows the sums and the quotient of the rows left |
| `Rolling.WindowIsHistory` | src/polymarket_btc/data_collection/market_data/state.py:95-123 | after any mix of trades and reads, a read no earlier than all of them holds exactly the trade history without its leading too-old rows, with the sums over those |
| `Rolling.KeptIsWindow` | src/polymarket_btc/data_collection/market_data/state.py:105-107 | with non-decreasing receive times the rows kept are exactly those in the window |
| `Rolling.ExtraReadShows` | src/polymarket_btc/data_collection/market_data/state.py:105-123 | with positive quantities, a window read at any time and then given any trades shows the same at a later read as one that was not read, if and only if no row from before the extra read is left to show or the first is not older than its cutoff |
| `Rolling.EarlyReadHarmless` | src/polymarket_btc/data_collection/market_data/state.py:105-123 | with no trade in between: if and only if the rows a read at the later time would keep are none or start no earlier than the extra read's cutoff |
| `Rolling.VwapWithinPrices` | src/polymarket_btc/data_collection/market_data/state.py:116-123 | with positive quantities the volume-weighted price exists and lies between the lowest and highest row price, and buy plus sell is the total |
| `Rolling.ReadMeans` | src/polymarket_btc/data_collection/market_data/state.py:86-123 | a read shows the quantities bought and the quantities sold of the rows left, and a price that times the quantity traded is the value traded |
| `Rolling.WindowSpan` | src/polymarket_btc/data_collection/market_data/state.py:95-123 | with trades received in order, a read shows exactly those received at most the window's seconds before it, both ways |
| `OrderBook.StepKeepsSound` | src/polymarket_btc/data_collection/market_data/state.py:328-368 | every step keeps a coherent book uncrossed, and an uninitialised one without levels and divergence count |
| `OrderBook.ViewIsBest` | src/polymarket_btc/data_collection/market_data/state.py:440-464 | the published levels are the 20 best of the book in strict order, and best bid and ask its highest bid and lowest ask |
| `OrderBook.LevelMapMeans` | src/polymarket_btc/data_collection/market_data/state.py:331-336 | a full book holds for each price the last of its levels at that price, and no other price |
| `OrderBook.ChangeMeans` | src/polymarket_btc/data_collection/market_data/state.py:337-347 | a price change sets the one level it names on its own side, or takes it away when its quantity is zero, and leaves every other level of both sides |
| `OrderBook.UncrossedMeans` | src/polymarket_btc/data_collection/market_data/state.py:370-372 | two sides are uncrossed if and only if every bid lies below every ask |
| `StateStore.Store.ApplyEvent` | src/polymarket_btc/data_collection/market_data/state.py:258-302 | reducing an event changes the store exactly as the specification's step does |
| `StateStore.Store.ApplyMarketWindow` | src/polymarket_btc/data_collection/market_data/state.py:213-236 | a market state replaces its timeframe's context and drops exactly the books no context refers to |
| `StateStore.Store.ApplyStatusEvent` | src/polymarket_btc/data_collection/market_data/state.py:262-280 | a status sets the flag; for CLOB, a disconnection or another session empties every book |
| `StateStore.Store.ApplyBookEvent` | src/polymarket_btc/data_collection/market_data/state.py:302-368 | a book event changes at most the book of its own asset, and only if it names that book's identity |
| `StateStore.Store.TakeSnapshot` | src/polymarket_btc/data_collection/market_data/state.py:504-563 | a snapshot shows the state at that time, and forgets what is too old: it is not read-only |
| `StateInvariants.ReachableInv` | src/polymarket_btc/data_collection/market_data/state.py:213-236 | in every reachable state a book is referenced by a market, sound, and, when a session is current and it is initialised, of that session; window sums are exact |
| `StateInvariants.AtMostEightBooks` | src/polymarket_btc/data_collection/market_data/state.py:223-236 | at most eight books are ever stored |
| `StateInvariants.HandOffKeepsBooks` | src/polymarket_btc/data_collection/market_data/state.py:213-236 | when the next market becomes the current one its books are kept unchanged |
| `StateInvariants.ReachablePositive` | src/polymarket_btc/data_collection/market_data/state.py:329-346 | with the levels the parser guarantees, every stored price and quantity is positive |
| `StateInvariants.BookIsFold` | src/polymarket_btc/data_collection/market_data/state.py:329-347 | an initialised book is its last accepted full book with the price changes accepted since, in order |
| `StateInvariants.PublishedBook` | src/polymarket_btc/data_collection/market_data/state.py:434-464 | what is published of a book is the 20 best levels and the best prices of that fold, uncrossed while it is called coherent |
| `StateInvariants.DivergenceCounts` | src/polymarket_btc/data_collection/market_data/state.py:329-360 | while neither a full book nor an agreement of a coherent book starts the count again, it grows by exactly the number of mismatches, price changes or not |
| `StateInvariants.DivergenceIs` | src/polymarket_btc/data_collection/market_data/state.py:329-360 | in every reachable state the divergence count of an initialised book is exactly the number of its mismatches since the last full book or the last agreement while it was coherent |
| `StateInvariants.UnusableOnlyBy` | src/polymarket_btc/data_collection/market_data/state.py:329-360 | a usable book that stays in the table becomes unusable only by a mismatch, an accepted full book or price change, or a CLOB status |
| `StateInvariants.MismatchLocksIff` | src/polymarket_btc/data_collection/market_data/state.py:354-358 | a mismatch leaves the book unusable if and only if it makes three or more, or the book was unusable already |
| `StateInvariants.ThirdMismatchLocks` | src/polymarket_btc/data_collection/market_data/state.py:329-360 | the third mismatch since the count last started locks the book, whatever comes between the mismatches, and it stays locked until a full book or a price change is accepted |
| `StateInvariants.LiftedLockReturns` | src/polymarket_btc/data_collection/market_data/state.py:347-358 | a lock that a price change lifted is back with the very next mismatch |
| `StateInvariants.LockHolds` | src/polymarket_btc/data_collection/market_data/state.py:348-360 | an unusable book stays so until an accepted full book or price change recomputes its coherence |
| `StateInvariants.PriceChangeLiftsLock` | src/polymarket_btc/data_collection/market_data/state.py:347 | a price change alone makes a locked book coherent again, exactly when its best prices do not cross |
| `StateHistory.StateRemembers` | src/polymarket_btc/data_collection/market_data/state.py:213-301 | in every reachable state the Chainlink price, trade, ticker and depth are the last event of their kind that was not stale, a timeframe's market is what its last market state said, a source is connected as its last status said and the session is that of the last CLOB connection; without such an event nothing is held |
| `StateHistory.AcceptsIff` | src/polymarket_btc/data_collection/market_data/state.py:281-327 | exactly which events an asset's book takes: of the current session, naming it in full, while a market lists it, and agreeing with the book already there |
| `StateHistory.BookHistory` | src/polymarket_btc/data_collection/market_data/state.py:302-368 | in every reachable state a stored book tells exactly this of the events it took since it was entered: their identity, the time of the last, the last trade price and tick size; it is resolved if and only if one was a resolution that lists its asset or lists none |
| `StateHistory.InitializedIff` | src/polymarket_btc/data_collection/market_data/state.py:213-347 | a book is initialised if and only if it took a full book since which neither a CLOB status ended or changed the session nor a market state dropped the asset |
| `StateHistory.UninitializedMeans` | src/polymarket_btc/data_collection/market_data/state.py:249-320 | a book that is not initialised is coherent and of the session it was entered with until a CLOB status invalidates it, and from then on neither |
| `StateHistory.MarketStateKeeps` | src/polymarket_btc/data_collection/market_data/state.py:213-236 | a market state keeps the book of every listed asset as it is and drops every other |
| `StateHistory.WindowsAreHistory` | src/polymarket_btc/data_collection/market_data/state.py:293-297 | the four windows are those of 1, 5, 30 and 60 seconds over the trades that were not stale |
| `StateHistory.CountersMean` | src/polymarket_btc/data_collection/market_data/state.py:284-347 | the two counters are the numbers of stale events and of price changes accepted before a full book |
| `Snapshots.ReadyIff` | src/polymarket_btc/data_collection/market_data/state.py:519-562 | ready, with no reason listed, if and only if all three sources are connected and fresh, a ticker was seen, a market exists, and every market that exists is active with both books initialised, coherent and unresolved |
| `Snapshots.OneMarketSuffices` | src/polymarket_btc/data_collection/market_data/state.py:545-547 | readiness does not need both markets: dropping one of two keeps a ready state ready |
| `Snapshots.ShownMarket` | src/polymarket_btc/data_collection/market_data/state.py:466-502 | under the invariant a timeframe is shown exactly when it has a current market, with the books kept for that market's own tokens, each with the book's levels, best prices, trade, tick size and flags, and the whole milliseconds left; it is ready exactly when the market is usable |
| `Snapshots.TickerMeans` | src/polymarket_btc/data_collection/market_data/state.py:394-408 | the ticker's own prices and quantities; with uncrossed prices and positive quantities the mid is half way between bid and ask, the microprice between them and nearer the ask exactly when more is bid, and the imbalance within -1 and 1 and positive exactly when more is bid than asked |
| `Snapshots.DepthMeans` | src/polymarket_btc/data_collection/market_data/state.py:409-432 | no levels give notional 0, and one more level adds its price times its quantity to its own side's notional and nothing to the other's |
| `Snapshots.ImbalanceMeans` | src/polymarket_btc/data_collection/market_data/state.py:409-432 | with positive quantities there is an imbalance as soon as there is a level, within -1 and 1 and positive exactly when the bids are worth more |
| `Snapshots.ChainlinkMeans` | src/polymarket_btc/data_collection/market_data/state.py:504-516 | the held Chainlink event's own price and times, and its age in whole milliseconds, never negative |
| `Snapshots.BinanceMeans` | src/polymarket_btc/data_collection/market_data/state.py:383-432 | the price and side of the held trade, and the held ticker's and depth's own figures |
| `Snapshots.ReasonsMean` | src/polymarket_btc/data_collection/market_data/state.py:504-563 | each reason is listed if and only if what it says of a source or a market is so, and listed once |
| `Snapshots.ReasonsInOrder` | src/polymarket_btc/data_collection/market_data/state.py:466-563 | the reasons come in one fixed order: the sources', no market, then each timeframe's, up before down |
| `Snapshots.SnapshotParts` | src/polymarket_btc/data_collection/market_data/state.py:504-563 | the snapshot's number, time and health, each timeframe's market in its own place, and the figures of the held events and windows |
| `Reducer.MarketDataReducer.ApplyEvent` | src/polymarket_btc/data_collection/market_data/reducer.py:20-31 | a tick gives the snapshot at its scheduled time with its own health rows, whatever the registry shows; any other event is applied and gives none |
| `Reducer.TickMeans` | src/polymarket_btc/data_collection/market_data/reducer.py:20-31 | a tick shows its own scheduled time, number and health rows, and the windows as of that time |
| `Reducer.MarketDataReducer.Perform` | src/polymarket_btc/data_collection/market_data/state.py:152-156 | every operation of the live process, an extra read and a flag included, changes the store as one live step |
| `Reducer.LiveReplayAgree` | src/polymarket_btc/data_collection/market_data/reducer.py:20-31 | a live run with any extra reads no later than the next tick and any flag changes shows at every tick the same market, Chainlink, Binance and health fields as the replay of its events, and the same verdict where the flags agree |
| `Reducer.LiveStateIsFold` | src/polymarket_btc/data_collection/market_data/state.py:258-368 | after any live operations the invariant holds, and all but windows and flags is the fold of the applied events: ticks and extra reads never touch books, contexts or sessions |
| `Reducer.ExtraReadExact` | src/polymarket_btc/data_collection/market_data/state.py:504-563 | from any state with positive quantities, whatever is reduced between an extra read and the next tick: the tick shows the same as without the read if and only if none of the windows notices it |
| `Reducer.EarlyReadDisagrees` | src/polymarket_btc/data_collection/market_data/state.py:116-117 | an instance: a read one minute ahead of the next tick loses the trade that tick shows, and the run disagrees with its replay |
| `Pipeline.BothConsumersAgree` | src/polymarket_btc/data_collection/market_data/event_bus.py:37-55 | the two consumers of a drained bus took the same consecutively numbered events |
| `Pipeline.StoredReplayAgrees` | src/polymarket_btc/data_collection/market_data/reducer.py:16-31 | from bus to replay: what storage took, written as JSON lines, closed, read back and reduced shows at every tick what the live process showed |
| `Pipeline.CrashedReplayAgrees` | src/polymarket_btc/data_collection/market_data/storage.py:366-466 | after a crash in any finalisation step and recovery nothing is lost, and replaying the survivors that form a beginning of the live run shows what that beginning showed |
| `Pipeline.ParsedBooksPositive` | src/polymarket_btc/data_collection/market_data/sources/polymarket_clob.py:87-104 | when every full book and price change comes from an accepted message, every stored price and quantity is positive after any live operations |
| `EventJson.EventReadsBack` | src/polymarket_btc/data_collection/market_data/models.py:466-661 | decoding the JSON value of any schema-2 event, of all thirteen kinds, gives back the same event |
| `EventJson.PayloadReadsBack` | src/polymarket_btc/data_collection/market_data/models.py:476-637 | the same for every payload under its stream |
| `EventJson.LevelsReadBack` | src/polymarket_btc/data_collection/market_data/models.py:420-421 | nested level lists survive, and only valid levels are built |
| `EventJson.WindowReadsBack` | src/polymarket_btc/data_collection/market_data/models.py:448-463 | market windows survive |
| `EventJson.RowsReadBack` | src/polymarket_btc/data_collection/market_data/models.py:562-581 | the health rows of a tick survive |
| `EventJson.JsonLinesFaithful` | src/polymarket_btc/data_collection/market_data/models.py:411-417 | the JSON line codec keeps what the log, its recovery and its replay rely on: lossless, one line per event |
| `ClobParser.ReadBookLevels` | src/polymarket_btc/data_collection/market_data/sources/polymarket_clob.py:87-104 | the loop over a side's rows gives the sorted levels, or fails, as specified |
| `ClobParser.BookDictMeans` | src/polymarket_btc/data_collection/market_data/sources/polymarket_clob.py:90-102 | a side is accepted if and only if every row is a level and none repeats the price of an earlier non-empty row; then it holds exactly the non-empty rows |
| `ClobParser.SortedLevelsHold` | src/polymarket_btc/data_collection/market_data/sources/polymarket_clob.py:103-104 | the levels are in strict order, best first, and are the whole side |
| `ClobParser.AcceptedBook` | src/polymarket_btc/data_collection/market_data/sources/polymarket_clob.py:263-272 | an accepted full book is sorted on both sides, holds exactly the rows of the message, and is uncrossed |
| `ClobParser.BookAcceptedIff` | src/polymarket_btc/data_collection/market_data/sources/polymarket_clob.py:263-272 | a full book is accepted if and only if both sides make a dictionary and these do not cross |
| `ClobParser.ReadChanges` | src/polymarket_btc/data_collection/market_data/sources/polymarket_clob.py:221-256 | the loop over the changes gives the events of all of them, or fails at the first that is malformed or of an unknown asset |
| `ClobParser.CollectMeans` | src/polymarket_btc/data_collection/market_data/sources/polymarket_clob.py:217-256 | the changes of a message are taken all or not at all, in order |
| `ClobParser.ChangeIsRead` | src/polymarket_btc/data_collection/market_data/sources/polymarket_clob.py:225-248 | a change written with its side, price, size, best prices and hash is read back as exactly that change |
| `ClobParser.BestIsRead` | src/polymarket_btc/data_collection/market_data/sources/polymarket_clob.py:274-282 | written best prices and spread are read back, each as itself, as the payload of their kind of message |
| `ClobParser.LastTradeIsRead` | src/polymarket_btc/data_collection/market_data/sources/polymarket_clob.py:283-295 | a written last trade is read back, as the payload of its kind of message |
| `ClobParser.TickSizeIsRead` | src/polymarket_btc/data_collection/market_data/sources/polymarket_clob.py:296-312 | a written tick size change is read back, old and new size each as itself |
| `ClobParser.SingleMeans` | src/polymarket_btc/data_collection/market_data/sources/polymarket_clob.py:257-312 | a message of one kind gives one event if and only if its asset is known and its payload is read: of its kind, about that asset, at the message's time |
| `ClobParser.SingleChecked` | src/polymarket_btc/data_collection/market_data/sources/polymarket_clob.py:257-312 | whatever kind it is of, an accepted payload has positive prices, trades and tick sizes, known sides and nothing negative |
| `ClobParser.ChangesMean` | src/polymarket_btc/data_collection/market_data/sources/polymarket_clob.py:217-256 | change k of an accepted message gives event k, about the asset that change names, with that change's payload, and its hash or else the message's |
| `ClobParser.MatchingMeans` | src/polymarket_btc/data_collection/market_data/sources/polymarket_clob.py:160-178 | a resolution without a list is about exactly the known assets whose market or condition it names |
| `ClobParser.AffectedMeans` | src/polymarket_btc/data_collection/market_data/sources/polymarket_clob.py:153-181 | a resolution with a list is about exactly the assets listed, in that order, and refused if and only if it lists none or an unknown one; without a list it is refused if and only if nothing matches |
| `ClobParser.ResolvedMeans` | src/polymarket_btc/data_collection/market_data/sources/polymarket_clob.py:180-203 | a resolution carries the winner it names or that of a known winning asset, and its own market and condition or those of its first asset |
| `ClobParser.ResolutionMeans` | src/polymarket_btc/data_collection/market_data/sources/polymarket_clob.py:153-216 | a resolution is accepted if and only if it is about some asset, and gives one resolution event for each |
| `ClobParser.ChangeMessageMeans` | src/polymarket_btc/data_collection/market_data/sources/polymarket_clob.py:217-256 | a message of changes is accepted if and only if it has some and each of them is accepted, and gives one change event for each |
| `ClobParser.EventNamed` | src/polymarket_btc/data_collection/market_data/sources/polymarket_clob.py:76-84 | an event's id is made of its kind, its asset and the hash that came with it, or the digest of its message where there is none |
| `ClobParser.TimestampMeans` | src/polymarket_btc/data_collection/market_data/sources/polymarket_clob.py:65-73 | a message's time is its timestamp in milliseconds, refused unless positive |
| `ClobParser.ResolvedForEach` | src/polymarket_btc/data_collection/market_data/sources/polymarket_clob.py:202-216 | a resolution gives one event for each affected asset, in order, all with the same payload |
| `ClobParser.MessageWellFormed` | src/polymarket_btc/data_collection/market_data/sources/polymarket_clob.py:141-312 | an accepted message gives at least one event, numbered in order, each for a known asset and described as the table describes it, with positive levels |
| `Subscriptions.PolymarketClobSource.OnMarketSnapshot` | src/polymarket_btc/data_collection/market_data/sources/polymarket_clob.py:365-398 | a snapshot updates the table, the desired set and the deadlines as specified: what it names stops retiring, what its timeframe owns and it leaves out starts to |
| `Subscriptions.SnapshotMeans` | src/polymarket_btc/data_collection/market_data/sources/polymarket_clob.py:365-398 | after a snapshot an id is required if and only if it is a token of the current or next market; then it is desired, not retiring, and in the table with the timeframe, the naming market's ids and the outcome UP for an up token and DOWN for a down token |
| `Subscriptions.ConnectionStarts` | src/polymarket_btc/data_collection/market_data/sources/polymarket_clob.py:492-509 | a connection starts by subscribing to everything desired when it was dialled and nothing else |
| `Subscriptions.PolymarketClobSource.Expire` | src/polymarket_btc/data_collection/market_data/sources/polymarket_clob.py:400-407 | exactly the assets whose deadline has come leave the table, the desired set and the deadlines |
| `Subscriptions.PolymarketClobSource.BeginPass` | src/polymarket_btc/data_collection/market_data/sources/polymarket_clob.py:459-462 | a pass expires first and then asks for the difference between desired and subscribed, both ways |
| `Subscriptions.PolymarketClobSource.Perform` | src/polymarket_btc/data_collection/market_data/sources/polymarket_clob.py:453-472 | whatever happens to the source between two awaits changes its fields as one step of the system that the results below are about |
| `Subscriptions.SubscriptionsConsistent` | src/polymarket_btc/data_collection/market_data/sources/polymarket_clob.py:365-407 | in every reachable state the table covers exactly the desired assets, an asset retires if and only if the latest snapshot of its owning timeframe leaves it out, and between passes the server holds exactly what is noted as subscribed |
| `Subscriptions.DeadlineStands` | src/polymarket_btc/data_collection/market_data/sources/polymarket_clob.py:390-394 | a retiring deadline never moves while it stands |
| `Subscriptions.FullGrace` | src/polymarket_btc/data_collection/market_data/sources/polymarket_clob.py:389-407 | an asset is dropped only by a pass, the full grace after a snapshot of its owner that left it out, with no snapshot taking it back in between |
| `Subscriptions.DroppedIff` | src/polymarket_btc/data_collection/market_data/sources/polymarket_clob.py:400-407 | an asset is dropped if and only if a pass finds its deadline come |
| `Subscriptions.PassReachesTarget` | src/polymarket_btc/data_collection/market_data/sources/polymarket_clob.py:461-472 | a pass ends with the server holding what was desired when the pass looked, whatever came in between |
| `Subscriptions.UndisturbedPass` | src/polymarket_btc/data_collection/market_data/sources/polymarket_clob.py:453-472 | a pass with nothing in between leaves the server with exactly the desired assets |
| `Subscriptions.RequiredStays` | src/polymarket_btc/data_collection/market_data/sources/polymarket_clob.py:385-397 | while the timeframes never name the same asset, every asset of a latest snapshot is desired and not retiring |
| `Transition.SearchTask.GoToNextSlot` | src/polymarket_btc/data_collection/market_discovery/transition.py:126-130 | the skipping loop stops at the first slot whose time has not passed, or the search fails after slot 20 |
| `Transition.SearchTask.StartSearch` | src/polymarket_btc/data_collection/market_discovery/transition.py:83-131 | the section from the search start to its first slot |
| `Transition.SearchTask.SendRequest` | src/polymarket_btc/data_collection/market_discovery/transition.py:134-139 | the section that hides a previous market when due and starts the request |
| `Transition.SearchTask.Receive` | src/polymarket_btc/data_collection/market_discovery/transition.py:140-181 | the section after an answer: NEXT_READY before the transition, ACTIVE from it on, or on to the next slot |
| `Transition.SearchTask.ExpirePrevious` | src/polymarket_btc/data_collection/market_discovery/transition.py:115-122 | the expiry task's body publishes at most one hiding snapshot |
| `Transition.SearchTask.Perform` | src/polymarket_btc/data_collection/market_discovery/transition.py:68-203 | whatever happens to the search between two awaits changes the shared variables as one step of the system that the results below are about |
| `Transition.NoExpiredMarket` | src/polymarket_btc/data_collection/market_discovery/transition.py:110-176 | in every interleaving, at every instant after the transition, the latest publication, be it the search's or an earlier one, shows the previous market if and only if the search has not begun and the earlier one does; it has not begun only in the instant of an entry after the transition |
| `Transition.NoneWhenOnTime` | src/polymarket_btc/data_collection/market_discovery/transition.py:110-176 | a search entered by the transition never leaves an expired market on show, whatever was published before |
| `Transition.StateLanguage` | src/polymarket_btc/data_collection/market_discovery/transition.py:87-195 | a search that has returned published one of five words of states; the second SEARCHING_NEXT hides a market that was live at the start and never follows NEXT_READY; the last state and the result say the same |
| `Transition.ReportsLastAnswer` | src/polymarket_btc/data_collection/market_discovery/transition.py:140-195 | a search that has returned reports its last answer: a success that very market, resolved when the answer came, with delay 0 up to the transition and the whole milliseconds past it afterwards; a failure the error of its last miss, or market_not_found |
| `Transition.StepPublishes` | src/polymarket_btc/data_collection/market_discovery/transition.py:87-108 | every publication carries the time of its step, the transition, the answers so far and the last error |
| `Transition.NothingAfterwards` | src/polymarket_btc/data_collection/market_discovery/transition.py:196-203 | nothing is published and the result does not change after a search has returned |
| `Transition.HiddenWhenLate` | src/polymarket_btc/data_collection/market_discovery/transition.py:118-138 | a live previous market is hidden in every search without NEXT_READY, unless its answer comes exactly at the transition |
| `Transition.SlotDiscipline` | src/polymarket_btc/data_collection/market_discovery/transition.py:124-183 | at most 21 requests, in strictly increasing slots, each exactly at its slot's time, none outside T-5 s to T+5 s, none after a late entry, and the reported count is their number |
| `Transition.NoSlotLeftOut` | src/polymarket_btc/data_collection/market_discovery/transition.py:124-183 | no slot is passed over early: a slot without a request had passed when the search looked for the next one, and a search gives up only when all have |
| `Transition.NoOverlap` | src/polymarket_btc/data_collection/market_discovery/transition.py:131-180 | each request starts after the answer to the one before |
| `Transition.NeverStuck` | src/polymarket_btc/data_collection/market_discovery/transition.py:125-195 | a search that has not returned always has a step to take |
| `Transition.StepsRunOut` | src/polymarket_btc/data_collection/market_discovery/transition.py:125-195 | every step but the passing of time lowers a bound on the steps left |
| `Resolver.WindowContains` | src/polymarket_btc/data_collection/market_discovery/resolver.py:26-29 | a window starts at a multiple of its length and contains the time it was found for |
| `Resolver.ValidateMarketPayload` | src/polymarket_btc/data_collection/market_discovery/resolver.py:82-144 | a payload is accepted if and only if it meets every demand, and then the market has the payload's own ids, the expected start and end and two different tokens, each the one listed beside its outcome |
| `Resolver.MarketReadsBack` | src/polymarket_btc/data_collection/market_discovery/resolver.py:82-144 | a payload that says a market is accepted, and the market read from it is that very one, whichever side is listed first |
| `Resolver.AcceptedMeans` | src/polymarket_btc/data_collection/market_discovery/resolver.py:82-144 | an accepted payload is of a market that is active, not closed, not archived and has its order book enabled, with ids and tokens that are not empty |
| `Resolver.SlugMeans` | src/polymarket_btc/data_collection/market_discovery/resolver.py:32-34 | a slug names the length of the window and the second it starts at |
| `Resolver.ReadPairs` | src/polymarket_btc/data_collection/market_discovery/resolver.py:120-128 | the loop over outcomes and tokens gives the pairs or the first failure |
| `Resolver.ResolveMarket` | src/polymarket_btc/data_collection/market_discovery/resolver.py:151-164 | an absent payload gives no error text and an unavailable one its own message; a market is answered exactly for an accepted payload, and then it is that payload's market for the window and slug asked for, up and down token in their places; a rejection names a demand the payload fails |
| `Worker.ResolveStartupMarket` | src/polymarket_btc/data_collection/market_discovery/transition.py:229-249 | the first of three attempts that finds a market not yet over, or what the third left |
| `Worker.DiscoveryWorker.TakeResult` | src/polymarket_btc/data_collection/market_discovery/transition.py:273-275 | after a search its result is logged, the market taken over and the boundary moved by one length |
| `Worker.ReturnedFacts` | src/polymarket_btc/data_collection/market_discovery/transition.py:160-195 | every result a search can return is valid, for its own boundary, and its market ends one length after it |
| `Worker.StartedOnBoundary` | src/polymarket_btc/data_collection/market_discovery/transition.py:252-258 | the first boundary is a multiple of the length: the end of the market found at startup, or the next one after now |
| `Worker.WorkerProgression` | src/polymarket_btc/data_collection/market_discovery/transition.py:251-275 | over any number of searches: one logged result each, for boundaries one length apart; the current market is that of the last result, none after a failure and the start's before the first, every search started from it, and it is none or ends exactly at the boundary |
| `Worker.WorkerShowsNoExpired` | src/polymarket_btc/data_collection/market_discovery/transition.py:271-275 | in every search of a worker the same holds for its current market: after the boundary it is on show only in the instant of entering a search too late |

## Left out

- Durability of writes: a completed write, rename or truncation is taken as on disk, so fsync has no model.
- I/O errors while writing an event or reading a file: only the errors the code raises itself are modelled.
- Buffered bytes: a crash tears an open file anywhere, which covers what a buffer may lose.
- SHA-256 and Zstandard: a hash stands for the content, a compressed file for its input and how it ends; one cut short gives a beginning of its input.
- Manifest fields other than hash, count, first and last number; a manifest always names its own segment.
- The hour directory and the random name of a segment are inputs of each write, and the clock's part in rotation too.
- Parquet snapshots and their recovery: the raw case is the harder one.
- Floating point and decimal context rounding: decimals are exact, so quotients such as the VWAP are not rounded.
- NaN and infinite decimals: a text either denotes a finite number or none.
- JSON text itself: a lossless text layer without newlines inside a value is assumed; JSON floats do not occur.
- Schema version 1 events: `EventJson.EventFrom` refuses them, the code upgrades them with loss.
- An unknown discovery state is refused when an event is decoded; the code accepts it there and fails when reducing.
- A JSON list field given as an object or a text is refused; the code would iterate over it.
- Levels of a snapshot with a non-positive price or negative quantity: the code raises when it builds them; parsed events never hold any.
- Payload classes always belong to their stream, as the sources build them; the code casts without checking.
- The health registry beyond the connected flags: a tick's own health rows replace its view.
- `StateStore.Store.TakeSnapshot`: health rows are a parameter, since the registry's counters and ages are not modelled.
- Conversion of a published discovery snapshot into a market state event, and the market state queue of the bus.
- `EventBus.FanOut`: a publisher that was refused because the bus was closed before it asked for the lock takes no step.
- Exceptions other than a missing market inside a search, and cancellation of a search: both end the process.
- Timers are exact and time stands still between awaits; an await whose deadline has passed is still a point where the other task may run.
- The sleep between startup attempts and the writing of the transition log file.
- ISO 8601, URL and JSON parsing in the resolver, and the texts of its error messages: functions of the host.
- Connections, heartbeats, backoff and the cache of seen event ids of the CLOB source.
- `Subscriptions.SubscriptionsConsistent`: a connection that fails ends its subscription task at once; the code lets it run into a closed socket during the backoff.
- A price change whose side is a list raises another exception in the code; here it is rejected like any unknown side.
- Binance and Chainlink sources, snapshot publisher, configuration and command line: plumbing.
