/**
 The gateway end to end: what the bus hands to the reducer and to storage, stored and read back, reduces
 to the snapshots the live process showed (market_data/gateway.py:100, 138-165 join the parts).
 */
module Pipeline {
  import opened Wrappers
  import opened Models
  import opened Lines
  import opened JsonValues
  import opened EventJson
  import opened RawFiles
  import opened OrderBook
  import opened LiveState
  import opened StateInvariants
  import opened Snapshots
  import ClobParser
  import EventBus
  import Merge
  import RawStorage
  import RawLog
  import Recovery
  import Replay
  import Reducer
  import Subscriptions

  /** The bus after the steps, drained: nothing is queued and no publisher gave up. */
  ghost predicate Drained(b: EventBus.Bus) {
    b.state.items == [] && b.storage.items == [] && b.lost == []
  }

  /** Both consumers of a drained bus got the same events, numbered consecutively. */
  lemma {:induction false} BothConsumersAgree(stateCapacity: int, storageCapacity: int, first: int,
                                              steps: seq<EventBus.Step>)
    requires EventBus.Run(EventBus.NewBus(stateCapacity, storageCapacity, first), steps).Some?
    requires Drained(EventBus.Run(EventBus.NewBus(stateCapacity, storageCapacity, first), steps).value)
    ensures var b := EventBus.Run(EventBus.NewBus(stateCapacity, storageCapacity, first), steps).value;
            && b.stateTaken == b.storageTaken == b.published && Consecutive(b.published)
            && (b.published != [] ==> b.published[0].number == first)
  {
    EventBus.FanOut(stateCapacity, storageCapacity, first, steps);
    var b := EventBus.Run(EventBus.NewBus(stateCapacity, storageCapacity, first), steps).value;
    assert b.stateTaken + [] == b.stateTaken && b.storageTaken + [] == b.storageTaken;
  }

  /** `order` names the segments open at the close, `listing` the manifests the directory walk then finds. */
  ghost predicate ClosesAs(c: LineCodec, rotateBytes: int, writes: seq<RawLog.WriteOp>, order: seq<RawStorage.Key>,
                           listing: seq<SegmentId>)
  {
    var written := RawLog.WriteRun(c, rotateBytes, writes);
    written.error == None ==>
      && RawStorage.ListsSegments(written.store, order)
      && ListsManifests(RawStorage.CloseAll(c, written.store, order).store.tree, listing)
  }

  /** What replay reads once the store is closed. */
  ghost function ReadBack(c: LineCodec, rotateBytes: int, writes: seq<RawLog.WriteOp>, order: seq<RawStorage.Key>,
                          listing: seq<SegmentId>): Merge.Stream
    requires RawLog.WriteRun(c, rotateBytes, writes).error == None
    requires ClosesAs(c, rotateBytes, writes, order, listing)
  {
    var written := RawLog.WriteRun(c, rotateBytes, writes).store;
    Replay.ReadRawEvents(c, RawStorage.CloseAll(c, written, order).store.tree, listing)
  }

  /** Every write has a segment name of its own, should it open a segment. */
  ghost predicate FreshNames(writes: seq<RawLog.WriteOp>) {
    forall i, j :: 0 <= i < j < |writes| ==> writes[i].Target() != writes[j].Target()
  }

  /**
   From bus to replay. Let publishers and consumers interleave in any way until the bus is drained and
   no publisher has given up; let the live process reduce what it takes, reading its state any number of
   extra times on the way; let storage write what it takes, with any hours and rotations, as JSON lines.
   Then every write and the close succeed, replay reads without an integrity error, and the replayed
   run shows at every tick what the live run showed.
   */
  lemma {:induction false} StoredReplayAgrees(
      h: Host, t: TextLayer, cfg: Config, stateCapacity: int, storageCapacity: int, first: int,
      steps: seq<EventBus.Step>, ops: seq<Reducer.LiveOp>, rotateBytes: int,
      writes: seq<RawLog.WriteOp>, order: seq<RawStorage.Key>, listing: seq<SegmentId>)
    requires Sensible(h) && Lossless(t) && first >= 1
    requires EventBus.Run(EventBus.NewBus(stateCapacity, storageCapacity, first), steps).Some?
    requires var b := EventBus.Run(EventBus.NewBus(stateCapacity, storageCapacity, first), steps).value;
             && Drained(b) && Storable(JsonLines(h, t), b.published)
             && Reducer.EventsOf(ops) == b.stateTaken && RawLog.EventsOf(writes) == b.storageTaken
    requires Reducer.WellTimed(ops) && FreshNames(writes)
    requires ClosesAs(JsonLines(h, t), rotateBytes, writes, order, listing)
    ensures RawLog.WriteRun(JsonLines(h, t), rotateBytes, writes).error == None
    ensures var replayed := ReadBack(JsonLines(h, t), rotateBytes, writes, order, listing);
            && replayed.error == None
            && Reducer.AllAgree(Reducer.LiveShots(cfg, INITIAL, ops),
                                Reducer.ReplayShots(cfg, INITIAL, replayed.events))
  {
    BothConsumersAgree(stateCapacity, storageCapacity, first, steps);
    JsonLinesFaithful(h, t);
    ValidWrites(JsonLines(h, t), writes);
    RawLog.LogRoundTrip(JsonLines(h, t), rotateBytes, writes, order, listing);
    Reducer.LiveReplayAgree(cfg, ops);
  }

  lemma {:induction false} ValidWrites(c: LineCodec, writes: seq<RawLog.WriteOp>)
    requires Consecutive(RawLog.EventsOf(writes)) && Storable(c, RawLog.EventsOf(writes)) && FreshNames(writes)
    requires RawLog.EventsOf(writes) != [] ==> RawLog.EventsOf(writes)[0].number >= 1
    ensures RawLog.ValidRun(c, writes)
  {
  }

  // After a crash.

  /** The data directory after recovery of a raw tree. */
  ghost function Recovered(c: LineCodec, tree: Tree, order: seq<SegmentId>): Recovery.Swept
    requires Recovery.Lists(Recovery.Directories(tree, []), order)
  {
    Recovery.Recover(c, Recovery.Directories(tree, []), order, |Recovery.PASSES|)
  }

  lemma {:induction false} NextTickOfPrefix(ops: seq<Reducer.LiveOp>, n: nat)
    requires n <= |ops|
    ensures Reducer.NextTick(ops[..n]).Some? ==> Reducer.NextTick(ops) == Reducer.NextTick(ops[..n])
  {
    if n > 0 {
      NextTickOfPrefix(ops[1..], n - 1);
      assert ops[..n][1..] == ops[1..][..n - 1];
    }
  }

  lemma {:induction false} PrefixWellTimed(ops: seq<Reducer.LiveOp>, n: nat)
    requires n <= |ops| && Reducer.WellTimed(ops)
    ensures Reducer.WellTimed(ops[..n])
  {
    if n > 0 {
      PrefixWellTimed(ops[1..], n - 1);
      assert ops[..n][1..] == ops[1..][..n - 1];
      NextTickOfPrefix(ops, n);
    }
  }

  /**
   Crash, recover, replay. Let the process crash while writing, each open segment torn anywhere or caught
   in any step of its finalisation, an interrupted compressed copy included, and let the events that survive
   in the raw tree be those the live process had reduced after its first `n` operations. Recovery succeeds
   and loses nothing, and the replayed run shows what those operations showed.
   */
  lemma {:induction false} CrashedReplayAgrees(
      h: Host, t: TextLayer, cfg: Config, rotateBytes: int, st: RawStorage.Store,
      parts: RawLog.Parts, log: seq<Event>, tree: Tree, kept: RawLog.Parts,
      order: seq<SegmentId>, listing: seq<SegmentId>, ops: seq<Reducer.LiveOp>, n: nat)
    requires Sensible(h) && Lossless(t)
    requires RawLog.Recorded(JsonLines(h, t), rotateBytes, st, parts, log)
    requires Recovery.AfterCrash(JsonLines(h, t), st, parts, tree, kept)
    requires Recovery.Lists(Recovery.Directories(tree, []), order)
    requires ListsManifests(Recovered(JsonLines(h, t), tree, order).dirs.raw, listing)
    requires n <= |ops| && Reducer.WellTimed(ops)
    requires Consecutive(Reducer.EventsOf(ops[..n])) && RawLog.Covers(kept, Reducer.EventsOf(ops[..n]))
    ensures var recovered := Recovered(JsonLines(h, t), tree, order);
            var replayed := Replay.ReadRawEvents(JsonLines(h, t), recovered.dirs.raw, listing);
            && !recovered.raised && replayed.error == None
            && Recovery.NothingLost(JsonLines(h, t), tree, parts, recovered.dirs.quarantine)
            && Reducer.AllAgree(Reducer.LiveShots(cfg, INITIAL, ops[..n]),
                                Reducer.ReplayShots(cfg, INITIAL, replayed.events))
  {
    JsonLinesFaithful(h, t);
    Recovery.CrashRecoverReplay(JsonLines(h, t), rotateBytes, st, parts, log, tree, kept, order, listing,
                                Reducer.EventsOf(ops[..n]));
    PrefixWellTimed(ops, n);
    Reducer.LiveReplayAgree(cfg, ops[..n]);
  }

  // Parsed messages and the books they make.

  ghost predicate ParsedFrom(h: Host, t: ClobParser.Texts, message: Json, assets: Subscriptions.Assets,
                             order: seq<string>, rx: ClobParser.Reception, k: nat, e: Event)
  {
    var parsed := ClobParser.ApplyMessage(h, t, message, assets, order, rx);
    parsed.Some? && k < |parsed.value| && e == parsed.value[k].(number := e.number)
  }

  /** The event is one of an accepted message's, up to the number the bus gave it. */
  ghost predicate Parsed(h: Host, t: ClobParser.Texts, e: Event) {
    exists message, assets, order, rx, k: nat :: ParsedFrom(h, t, message, assets, order, rx, k, e)
  }

  /** Every full book and price change comes from an accepted message. */
  ghost predicate BooksParsed(h: Host, t: ClobParser.Texts, events: seq<Event>) {
    forall i :: 0 <= i < |events| && (events[i].payload.PolymarketBook? || events[i].payload.PolymarketPriceChange?) ==>
      Parsed(h, t, events[i])
  }

  lemma ParsedIsPositive(h: Host, t: ClobParser.Texts, e: Event)
    requires Parsed(h, t, e)
    ensures PositiveLevels(e)
  {
    var message, assets, order, rx, k: nat :| ParsedFrom(h, t, message, assets, order, rx, k, e);
    ClobParser.MessageWellFormed(h, t, message, assets, order, rx);
    var parsed := ClobParser.ApplyMessage(h, t, message, assets, order, rx).value;
    assert PositiveLevels(parsed[k]);
  }

  /**
   When every full book and price change comes from an accepted message, then after any operations of the live
   process every price and quantity stored in any book is positive.
   */
  lemma {:induction false} ParsedBooksPositive(h: Host, t: ClobParser.Texts, ops: seq<Reducer.LiveOp>)
    requires BooksParsed(h, t, Reducer.Applied(ops))
    ensures AllBooksPositive(Reducer.LiveEnd(INITIAL, ops))
  {
    var events := Reducer.Applied(ops);
    forall i | 0 <= i < |events| ensures PositiveLevels(events[i]) {
      if events[i].payload.PolymarketBook? || events[i].payload.PolymarketPriceChange? {
        ParsedIsPositive(h, t, events[i]);
      }
    }
    ReachablePositive(events);
    Reducer.LiveStateIsFold(ops);
    var live, folded := Reducer.LiveEnd(INITIAL, ops), Run(INITIAL, events);
    assert live.books == Reducer.Rest(live).books == Reducer.Rest(folded).books == folded.books;
  }
}
