/** The reducer that live ingestion and replay share (market_data/reducer.py), and why they agree. */
module Reducer {
  import opened Wrappers
  import opened Models
  import opened Rolling
  import opened LiveState
  import opened StateInvariants
  import opened Snapshots
  import opened StateStore

  /** The state after an event: a tick reads the state, every other event is applied to it. */
  function Step(s: State, e: Event): State {
    if e.payload.SnapshotTick? then Expired(s, e.payload.scheduledNs) else Apply(s, e)
  }

  /** What a tick shows: the state at its scheduled time with the health rows the tick itself carries. */
  function Shown(cfg: Config, s: State, e: Event): Snapshot
    requires e.payload.SnapshotTick?
  {
    SnapshotOf(cfg, Step(s, e), e.payload.scheduledNs, e.payload.snapshotSequence, e.payload.health)
  }

  /** A tick shows the time it was scheduled for and its own number and health rows, whenever it is reduced. */
  lemma TickMeans(cfg: Config, s: State, e: Event)
    requires e.payload.SnapshotTick?
    ensures var shown := Shown(cfg, s, e);
            && shown.atNs == e.payload.scheduledNs && shown.snapshotSequence == e.payload.snapshotSequence
            && shown.health == e.payload.health
            && shown.binance.windows == ReadAll(ExpireAll(s.windows, e.payload.scheduledNs))
  {
  }

  /** What the live process does to its store: reduce an event, read it for the health file, or flip a flag. */
  datatype LiveOp =
    | Reduce(e: Event)
    | ExtraRead(nowNs: int)
    | SetFlag(source: EventSource, up: bool)

  function LiveStep(s: State, op: LiveOp): State {
    match op
    case Reduce(e) => Step(s, e)
    case ExtraRead(nowNs) => Expired(s, nowNs)
    case SetFlag(source, up) => WithConnection(s, source, up)
  }

  class MarketDataReducer {
    const store: Store

    constructor (store: Store)
      ensures this.store == store
    {
      this.store := store;
    }

    /** `registry` is what the health registry shows at the call; the tick's own rows replace it. */
    method ApplyEvent(e: Event, registry: seq<(EventSource, SourceHealth)>) returns (shown: Option<Snapshot>)
      requires store.Valid()
      modifies store, store.windows
      ensures store.Valid() && store.View() == Step(old(store.View()), e)
      ensures shown == if e.payload.SnapshotTick? then Some(Shown(store.config, old(store.View()), e)) else None
    {
      if e.payload.SnapshotTick? {
        var taken := store.TakeSnapshot(e.payload.scheduledNs, e.payload.snapshotSequence, registry);
        shown := Some(taken.(health := e.payload.health));
      } else {
        store.ApplyEvent(e);
        shown := None;
      }
    }

    /** What the live process does to the store is one of its operations; `registry` is as for an event. */
    method Perform(op: LiveOp, registry: seq<(EventSource, SourceHealth)>)
      requires store.Valid()
      modifies store, store.windows
      ensures store.Valid() && store.View() == LiveStep(old(store.View()), op)
    {
      match op {
        case Reduce(e) => var shown := ApplyEvent(e, registry);
        case ExtraRead(nowNs) => var shown := store.TakeSnapshot(nowNs, 0, registry);
        case SetFlag(source, up) => store.SetConnected(source, up);
      }
    }
  }

  // Replaying events, and the same events live.

  /** A snapshot with the connection flags that were current when it was taken. */
  datatype Shot = Shot(snapshot: Snapshot, connected: set<EventSource>)

  function ReplayShots(cfg: Config, s: State, events: seq<Event>): seq<Shot>
    decreases |events|
  {
    if events == [] then []
    else
      var e := events[0];
      (if e.payload.SnapshotTick? then [Shot(Shown(cfg, s, e), s.connected)] else [])
      + ReplayShots(cfg, Step(s, e), events[1..])
  }

  function LiveShots(cfg: Config, s: State, ops: seq<LiveOp>): seq<Shot>
    decreases |ops|
  {
    if ops == [] then []
    else
      (if ops[0].Reduce? && ops[0].e.payload.SnapshotTick? then [Shot(Shown(cfg, s, ops[0].e), s.connected)] else [])
      + LiveShots(cfg, LiveStep(s, ops[0]), ops[1..])
  }

  /** The events reduced, in order. */
  function EventsOf(ops: seq<LiveOp>): seq<Event> {
    if ops == [] then []
    else (if ops[0].Reduce? then [ops[0].e] else []) + EventsOf(ops[1..])
  }

  /** The scheduled time of the first tick still to come. */
  function NextTick(ops: seq<LiveOp>): Option<int> {
    if ops == [] then None
    else if ops[0].Reduce? && ops[0].e.payload.SnapshotTick? then Some(ops[0].e.payload.scheduledNs)
    else NextTick(ops[1..])
  }

  /** Every extra read is for a time no later than the next tick's scheduled time. */
  predicate WellTimed(ops: seq<LiveOp>) {
    ops == [] ||
    ( && (ops[0].ExtraRead? && NextTick(ops).Some? ==> ops[0].nowNs <= NextTick(ops).value)
      && WellTimed(ops[1..]))
  }

  /** Nothing read from `now` on tells the two windows apart. */
  ghost predicate AlikeWindow(a: Window, b: Window, now: Option<int>) {
    a.seconds == b.seconds && (now.Some? ==> SameFrom(a.rows, b.rows, Cutoff(a.seconds, now.value)))
  }

  ghost predicate AlikeWindows(a: seq<Window>, b: seq<Window>, now: Option<int>) {
    |a| == |b| && forall i :: 0 <= i < |a| ==> AlikeWindow(a[i], b[i], now)
  }

  /** All but the windows and the connection flags. */
  function Rest(s: State): State {
    s.(windows := [], connected := {})
  }

  ghost predicate Alike(s: State, t: State, now: Option<int>) {
    Rest(s) == Rest(t) && AlikeWindows(s.windows, t.windows, now)
  }

  lemma {:induction false} AddKeepsAlike(a: seq<Window>, b: seq<Window>, row: Row, now: Option<int>)
    requires AlikeWindows(a, b, now)
    ensures AlikeWindows(AddToAll(a, row), AddToAll(b, row), now)
  {
    if now.Some? {
      forall i | 0 <= i < |a| ensures AlikeWindow(AddToAll(a, row)[i], AddToAll(b, row)[i], now) {
        assert AlikeWindow(a[i], b[i], now);
        SameAfterAdd(a[i].rows, b[i].rows, row, Cutoff(a[i].seconds, row.receivedNs), Cutoff(a[i].seconds, now.value));
      }
    }
  }

  lemma {:induction false} ReadKeepsAlike(a: seq<Window>, b: seq<Window>, at: int, now: Option<int>)
    requires AlikeWindows(a, b, now) && (now.Some? ==> at <= now.value)
    ensures AlikeWindows(ExpireAll(a, at), b, now)
  {
    if now.Some? {
      forall i | 0 <= i < |a| ensures AlikeWindow(ExpireAll(a, at)[i], b[i], now) {
        assert AlikeWindow(a[i], b[i], now);
        SameAfterExtraRead(a[i].rows, b[i].rows, Cutoff(a[i].seconds, at), Cutoff(a[i].seconds, now.value));
      }
    }
  }

  /** A read at the agreed time finds the very same windows. */
  lemma {:induction false} ReadMakesEqual(a: seq<Window>, b: seq<Window>, now: int)
    requires AlikeWindows(a, b, Some(now))
    ensures ExpireAll(a, now) == ExpireAll(b, now)
  {
    forall i | 0 <= i < |a| ensures Expire(a[i], now) == Expire(b[i], now) {
      assert AlikeWindow(a[i], b[i], Some(now));
    }
  }

  lemma BookRest(s: State, t: State, e: Event)
    requires Rest(s) == Rest(t)
    ensures Rest(ApplyToBook(s, e)) == Rest(ApplyToBook(t, e))
  {
    assert s.books == Rest(s).books && t.books == Rest(t).books;
    assert s.contexts == Rest(s).contexts && t.contexts == Rest(t).contexts;
    assert s.earlyDeltas == Rest(s).earlyDeltas && t.earlyDeltas == Rest(t).earlyDeltas;
  }

  lemma MarketRest(s: State, t: State, payload: Payload)
    requires Rest(s) == Rest(t) && payload.MarketWindowState?
    ensures Rest(ApplyMarketState(s, payload)) == Rest(ApplyMarketState(t, payload))
  {
    assert s.books == Rest(s).books && t.books == Rest(t).books;
    assert s.contexts == Rest(s).contexts && t.contexts == Rest(t).contexts;
  }

  lemma FeedRest(s: State, t: State, e: Event)
    requires Rest(s) == Rest(t)
    requires e.payload.ChainlinkPrice? || e.payload.BinanceAggTrade? || e.payload.BinanceBookTicker?
             || e.payload.BinanceDepth20?
    ensures Rest(ApplyCurrent(s, e)) == Rest(ApplyCurrent(t, e))
  {
  }

  lemma CurrentRest(s: State, t: State, e: Event)
    requires Rest(s) == Rest(t)
    ensures Rest(ApplyCurrent(s, e)) == Rest(ApplyCurrent(t, e))
  {
    if e.payload.MarketWindowState? {
      MarketRest(s, t, e.payload);
    } else if e.payload.ChainlinkPrice? || e.payload.BinanceAggTrade? || e.payload.BinanceBookTicker?
              || e.payload.BinanceDepth20? {
      FeedRest(s, t, e);
    } else {
      BookRest(s, t, e);
    }
  }

  lemma StatusRest(s: State, t: State, source: EventSource, up: bool, sessionId: Option<string>)
    requires Rest(s) == Rest(t)
    ensures Rest(ApplyStatus(s, source, up, sessionId)) == Rest(ApplyStatus(t, source, up, sessionId))
  {
    assert s.books == Rest(s).books && t.books == Rest(t).books;
    assert s.session == Rest(s).session && t.session == Rest(t).session;
  }

  lemma ApplyRest(s: State, t: State, e: Event)
    requires Rest(s) == Rest(t)
    ensures Rest(Apply(s, e)) == Rest(Apply(t, e))
  {
    assert s.session == Rest(s).session && t.session == Rest(t).session;
    assert s.staleSessions == Rest(s).staleSessions && t.staleSessions == Rest(t).staleSessions;
    if e.payload.SourceStatus? {
      StatusRest(s, t, e.payload.source, e.payload.connected, e.payload.sessionId);
    } else {
      CurrentRest(s, t, e);
    }
  }

  lemma ApplyKeepsAlike(s: State, t: State, e: Event, now: Option<int>)
    requires Alike(s, t, now)
    ensures Alike(Apply(s, e), Apply(t, e), now)
  {
    ApplyRest(s, t, e);
    ApplyWindows(s, e);
    ApplyWindows(t, e);
    assert s.session == Rest(s).session && t.session == Rest(t).session;
    if !StaleSession(s, e) && e.payload.BinanceAggTrade? {
      AddKeepsAlike(s.windows, t.windows, RowOf(e.wallNs, e.payload), now);
    }
  }

  /** The sources whose connection the verdict looks at. */
  const GATES := {CHAINLINK_RTDS, BINANCE_SPOT, POLYMARKET_CLOB}

  /** The two snapshots agree on everything but the overall verdict, and on that too under equal flags. */
  ghost predicate Agree(live: Shot, replay: Shot) {
    && live.snapshot.(ready := false, reasons := []) == replay.snapshot.(ready := false, reasons := [])
    && (live.connected * GATES == replay.connected * GATES ==> live.snapshot == replay.snapshot)
  }

  ghost predicate AllAgree(live: seq<Shot>, replay: seq<Shot>) {
    |live| == |replay| && forall i :: 0 <= i < |live| ==> Agree(live[i], replay[i])
  }

  /** Apart from the verdict, a snapshot does not depend on the flags, and the verdict only on the three gates. */
  lemma FlagsOnlyGate(cfg: Config, a: State, b: State, atNs: int, number: int, health: seq<(EventSource, SourceHealth)>)
    requires a.(connected := {}) == b.(connected := {})
    ensures var x, y := SnapshotOf(cfg, a, atNs, number, health), SnapshotOf(cfg, b, atNs, number, health);
            && x.(ready := false, reasons := []) == y.(ready := false, reasons := [])
            && (a.connected * GATES == b.connected * GATES ==> x == y)
  {
    if a.connected * GATES == b.connected * GATES {
      forall g | g in GATES ensures g in a.connected <==> g in b.connected {
        assert g in a.connected * GATES <==> g in b.connected * GATES;
      }
    }
  }

  lemma TickAgrees(cfg: Config, s: State, t: State, e: Event)
    requires e.payload.SnapshotTick? && Alike(s, t, Some(e.payload.scheduledNs))
    ensures Agree(Shot(Shown(cfg, s, e), s.connected), Shot(Shown(cfg, t, e), t.connected))
    ensures Rest(Step(s, e)) == Rest(Step(t, e)) && Step(s, e).windows == Step(t, e).windows
  {
    ReadMakesEqual(s.windows, t.windows, e.payload.scheduledNs);
    var a, b := Step(s, e), Step(t, e);
    assert a.(connected := {}) == Rest(s).(windows := a.windows);
    assert b.(connected := {}) == Rest(t).(windows := b.windows);
    FlagsOnlyGate(cfg, a, b, e.payload.scheduledNs, e.payload.snapshotSequence, e.payload.health);
  }

  lemma EqualWindowsAlike(a: seq<Window>, now: Option<int>)
    ensures AlikeWindows(a, a, now)
  {
  }

  lemma ConsAgree(a: Shot, b: Shot, live: seq<Shot>, replay: seq<Shot>)
    requires Agree(a, b) && AllAgree(live, replay)
    ensures AllAgree([a] + live, [b] + replay)
  {
  }

  lemma {:induction false} AlikeRunsAgree(cfg: Config, s: State, t: State, ops: seq<LiveOp>)
    requires WellTimed(ops) && Alike(s, t, NextTick(ops))
    ensures AllAgree(LiveShots(cfg, s, ops), ReplayShots(cfg, t, EventsOf(ops)))
    decreases |ops|
  {
    if ops != [] {
      var rest := ops[1..];
      match ops[0] {
        case Reduce(e) =>
          assert EventsOf(ops)[1..] == EventsOf(rest);
          if e.payload.SnapshotTick? {
            TickAgrees(cfg, s, t, e);
            EqualWindowsAlike(Step(s, e).windows, NextTick(rest));
            AlikeRunsAgree(cfg, Step(s, e), Step(t, e), rest);
            ConsAgree(Shot(Shown(cfg, s, e), s.connected), Shot(Shown(cfg, t, e), t.connected),
                      LiveShots(cfg, Step(s, e), rest), ReplayShots(cfg, Step(t, e), EventsOf(rest)));
          } else {
            assert LiveShots(cfg, s, ops) == LiveShots(cfg, Step(s, e), rest);
            assert ReplayShots(cfg, t, EventsOf(ops)) == ReplayShots(cfg, Step(t, e), EventsOf(rest));
            ApplyKeepsAlike(s, t, e, NextTick(ops));
            AlikeRunsAgree(cfg, Step(s, e), Step(t, e), rest);
          }
        case ExtraRead(nowNs) =>
          assert EventsOf(ops) == EventsOf(rest) && LiveShots(cfg, s, ops) == LiveShots(cfg, Expired(s, nowNs), rest);
          ReadKeepsAlike(s.windows, t.windows, nowNs, NextTick(ops));
          AlikeRunsAgree(cfg, Expired(s, nowNs), t, rest);
        case SetFlag(source, up) =>
          assert EventsOf(ops) == EventsOf(rest);
          assert LiveShots(cfg, s, ops) == LiveShots(cfg, WithConnection(s, source, up), rest);
          AlikeRunsAgree(cfg, WithConnection(s, source, up), t, rest);
      }
    }
  }

  /**
   Live and replayed runs agree. The live process may read its store any number of extra times and set
   its connection flags at will; replaying just the events from an empty state shows, at every tick, the
   same markets, Chainlink, Binance and health fields, and the same verdict wherever the flags agree.
   */
  lemma {:induction false} LiveReplayAgree(cfg: Config, ops: seq<LiveOp>)
    requires WellTimed(ops)
    ensures AllAgree(LiveShots(cfg, INITIAL, ops), ReplayShots(cfg, INITIAL, EventsOf(ops)))
  {
    EqualWindowsAlike(INITIAL.windows, NextTick(ops));
    AlikeRunsAgree(cfg, INITIAL, INITIAL, ops);
  }

  // Every state the live store goes through.

  function LiveEnd(s: State, ops: seq<LiveOp>): State {
    if ops == [] then s else LiveStep(LiveEnd(s, ops[..|ops| - 1]), ops[|ops| - 1])
  }

  /** The events applied to the state, ticks left out. */
  function Applied(ops: seq<LiveOp>): seq<Event> {
    if ops == [] then []
    else
      var last := ops[|ops| - 1];
      Applied(ops[..|ops| - 1]) + (if last.Reduce? && !last.e.payload.SnapshotTick? then [last.e] else [])
  }

  lemma LiveStepKeepsInv(s: State, op: LiveOp)
    requires Inv(s)
    ensures Inv(LiveStep(s, op))
  {
    if op.Reduce? && !op.e.payload.SnapshotTick? {
      ApplyKeepsInv(s, op.e);
    } else {
      var t := LiveStep(s, op);
      forall id | id in t.books ensures BookFits(t, id) {
        assert BookFits(s, id);
      }
    }
  }

  lemma LiveStepRest(s: State, t: State, op: LiveOp)
    requires Rest(s) == Rest(t)
    ensures Rest(LiveStep(s, op)) ==
            Rest(if op.Reduce? && !op.e.payload.SnapshotTick? then Apply(t, op.e) else t)
  {
    if op.Reduce? && !op.e.payload.SnapshotTick? {
      ApplyRest(s, t, op.e);
    }
  }

  lemma {:induction false} RunSnoc(events: seq<Event>, e: Event)
    ensures Run(INITIAL, events + [e]) == Apply(Run(INITIAL, events), e)
  {
    assert (events + [e])[..|events|] == events;
  }

  /**
   After any operations of the live process the store keeps the invariant of the books and windows, and
   apart from windows and flags it is what the events applied, one after the other, make of an empty
   state: ticks, extra reads and flags never touch a book, a context or a session.
   */
  lemma {:induction false} LiveStateIsFold(ops: seq<LiveOp>)
    ensures Inv(LiveEnd(INITIAL, ops))
    ensures Rest(LiveEnd(INITIAL, ops)) == Rest(Run(INITIAL, Applied(ops)))
  {
    if ops == [] {
      ReachableInv([]);
    } else {
      var front, op := ops[..|ops| - 1], ops[|ops| - 1];
      LiveStateIsFold(front);
      LiveStepKeepsInv(LiveEnd(INITIAL, front), op);
      LiveStepRest(LiveEnd(INITIAL, front), Run(INITIAL, Applied(front)), op);
      if op.Reduce? && !op.e.payload.SnapshotTick? {
        RunSnoc(Applied(front), op.e);
      } else {
        assert Applied(front) + [] == Applied(front);
      }
    }
  }

  // Exactly when an extra read changes what the next tick shows.

  /** Only events are reduced, none of them a tick, and flags set. */
  ghost predicate Plain(ops: seq<LiveOp>) {
    forall i :: 0 <= i < |ops| ==> ops[i].SetFlag? || (ops[i].Reduce? && !ops[i].e.payload.SnapshotTick?)
  }

  function RowsOf(s: State, op: LiveOp): seq<Row> {
    if op.Reduce? && !StaleSession(s, op.e) && op.e.payload.BinanceAggTrade?
    then [RowOf(op.e.wallNs, op.e.payload)] else []
  }

  /** The trades that reach the windows. */
  function TradesIn(s: State, ops: seq<LiveOp>): seq<Row> {
    if ops == [] then []
    else
      var front := ops[..|ops| - 1];
      TradesIn(s, front) + RowsOf(LiveEnd(s, front), ops[|ops| - 1])
  }

  lemma PlainStepWindows(s: State, op: LiveOp)
    requires op.SetFlag? || (op.Reduce? && !op.e.payload.SnapshotTick?)
    ensures LiveStep(s, op).windows ==
            if RowsOf(s, op) == [] then s.windows else AddToAll(s.windows, RowsOf(s, op)[0])
  {
    if op.Reduce? {
      ApplyWindows(s, op.e);
    }
  }

  lemma {:induction false} AddAllSnoc(w: Window, rows: seq<Row>, row: Row)
    ensures AddAll(w, rows + [row]) == Add(AddAll(w, rows), row)
  {
    assert (rows + [row])[..|rows|] == rows;
  }

  /** Every window receives the trades one after the other. */
  lemma {:induction false} PlainWindows(s: State, ops: seq<LiveOp>, i: nat)
    requires Plain(ops) && i < |s.windows|
    ensures |LiveEnd(s, ops).windows| == |s.windows|
    ensures LiveEnd(s, ops).windows[i] == AddAll(s.windows[i], TradesIn(s, ops))
  {
    if ops != [] {
      var front, last := ops[..|ops| - 1], ops[|ops| - 1];
      PlainWindows(s, front, i);
      PlainStepWindows(LiveEnd(s, front), last);
      var more := RowsOf(LiveEnd(s, front), last);
      if more == [] {
        assert TradesIn(s, front) + [] == TradesIn(s, front);
      } else {
        assert more == [more[0]];
        AddAllSnoc(s.windows[i], TradesIn(s, front), more[0]);
      }
    }
  }

  /** Equal but for the windows. */
  predicate SameApart(s: State, t: State) {
    Rest(s) == Rest(t) && s.connected == t.connected
  }

  lemma StepConnected(s: State, t: State, op: LiveOp)
    requires s.connected == t.connected
    ensures LiveStep(s, op).connected == LiveStep(t, op).connected
  {
    if op.Reduce? {
      ApplyWindows(s, op.e);
      ApplyWindows(t, op.e);
    }
  }

  lemma {:induction false} SameApartRuns(s: State, t: State, ops: seq<LiveOp>)
    requires Plain(ops) && SameApart(s, t)
    ensures SameApart(LiveEnd(s, ops), LiveEnd(t, ops)) && TradesIn(s, ops) == TradesIn(t, ops)
  {
    if ops != [] {
      var front, last := ops[..|ops| - 1], ops[|ops| - 1];
      SameApartRuns(s, t, front);
      StepConnected(LiveEnd(s, front), LiveEnd(t, front), last);
      LiveStepRest(LiveEnd(s, front), LiveEnd(t, front), last);
      if last.Reduce? {
        SameSession(LiveEnd(s, front), LiveEnd(t, front));
      }
    }
  }

  lemma SameSession(s: State, t: State)
    requires Rest(s) == Rest(t)
    ensures s.session == t.session
  {
    assert s.session == Rest(s).session && t.session == Rest(t).session;
  }

  /** Between states that differ in their windows only, a tick tells the difference by the reads alone. */
  lemma ShownSameIff(cfg: Config, s: State, t: State, tick: Event)
    requires tick.payload.SnapshotTick? && SameApart(s, t)
    ensures Shown(cfg, s, tick) == Shown(cfg, t, tick) <==>
            ReadAll(Step(s, tick).windows) == ReadAll(Step(t, tick).windows)
  {
    var a, b := Step(s, tick), Step(t, tick);
    assert a == Rest(s).(windows := a.windows, connected := s.connected);
    assert b == Rest(t).(windows := b.windows, connected := t.connected);
  }

  /** The condition: no window shows a row from before the extra read that the extra read would have dropped. */
  ghost predicate ReadUnnoticed(s: State, atNs: int, ops: seq<LiveOp>, tick: Event)
    requires tick.payload.SnapshotTick? && |LiveEnd(s, ops).windows| == |s.windows|
  {
    forall i :: 0 <= i < |s.windows| ==>
      Unnoticed(Expire(LiveEnd(s, ops).windows[i], tick.payload.scheduledNs), |TradesIn(s, ops)|,
                Cutoff(s.windows[i].seconds, atNs))
  }

  ghost predicate PositiveWindows(s: State) {
    forall i :: 0 <= i < |s.windows| ==> AllPositive(s.windows[i].rows)
  }

  /**
   Exactly when an extra read is harmless. From any state, whatever is reduced between an extra read (at any
   time, early or not) and the next tick: that tick shows the same as without the read if and only if no
   window shows a row from before the read that is older than the read's cutoff.
   */
  lemma {:induction false} ExtraReadExact(cfg: Config, s: State, atNs: int, ops: seq<LiveOp>, tick: Event)
    requires tick.payload.SnapshotTick? && Plain(ops) && PositiveWindows(s) && AllPositive(TradesIn(s, ops))
    ensures |LiveEnd(s, ops).windows| == |s.windows|
    ensures Shown(cfg, LiveEnd(Expired(s, atNs), ops), tick) == Shown(cfg, LiveEnd(s, ops), tick) <==>
            ReadUnnoticed(s, atNs, ops, tick)
  {
    var e := Expired(s, atNs);
    SameApartRuns(e, s, ops);
    WindowCount(s, ops);
    WindowCount(e, ops);
    ShownSameIff(cfg, LiveEnd(e, ops), LiveEnd(s, ops), tick);
    var a, b := Step(LiveEnd(e, ops), tick).windows, Step(LiveEnd(s, ops), tick).windows;
    forall i | 0 <= i < |s.windows|
      ensures ReadAll(a)[i] == ReadAll(b)[i] <==>
              Unnoticed(b[i], |TradesIn(s, ops)|, Cutoff(s.windows[i].seconds, atNs))
    {
      PlainWindows(s, ops, i);
      PlainWindows(e, ops, i);
      ExtraReadShows(s.windows[i], atNs, TradesIn(s, ops), tick.payload.scheduledNs);
    }
  }

  lemma {:induction false} WindowCount(s: State, ops: seq<LiveOp>)
    requires Plain(ops)
    ensures |LiveEnd(s, ops).windows| == |s.windows|
  {
    if ops != [] {
      WindowCount(s, ops[..|ops| - 1]);
      PlainStepWindows(LiveEnd(s, ops[..|ops| - 1]), ops[|ops| - 1]);
    }
  }

  /** An instance: a read a minute past the next tick's time loses the trade that the tick shows. */
  lemma {:induction false} EarlyReadDisagrees(trade: Event, tick: Event, cfg: Config)
    requires trade.payload.BinanceAggTrade? && trade.source == BINANCE_SPOT && trade.payload.quantity > 0.0
    requires tick.payload.SnapshotTick? && tick.payload.scheduledNs == trade.wallNs
    ensures var ops := [Reduce(trade), ExtraRead(trade.wallNs + 61_000_000_000), Reduce(tick)];
            !AllAgree(LiveShots(cfg, INITIAL, ops), ReplayShots(cfg, INITIAL, EventsOf(ops)))
  {
    var early, added := trade.wallNs + 61_000_000_000, Apply(INITIAL, trade);
    FirstTradeKept(trade);
    ExtraReadExact(cfg, added, early, [], tick);
    assert !Unnoticed(Expire(added.windows[3], trade.wallNs), 0, Cutoff(60, early));
    ShotsOfThree(cfg, trade, early, tick);
    var live := Shot(Shown(cfg, Expired(added, early), tick), added.connected);
    var replay := Shot(Shown(cfg, added, tick), added.connected);
    assert !Agree([live][0], [replay][0]);
  }

  lemma OneTradeKept(seconds: int, row: Row)
    requires seconds >= 0
    ensures var w := Add(Window(seconds, [], ZERO), row);
            w.seconds == seconds && w.rows == [row] && Expire(w, row.receivedNs).rows == [row]
  {
    assert [] + [row] == [row];
    assert DropOld([row], Cutoff(seconds, row.receivedNs)) == [row];
  }

  lemma FirstTradeKept(trade: Event)
    requires trade.payload.BinanceAggTrade? && trade.source == BINANCE_SPOT
    ensures var row, windows := RowOf(trade.wallNs, trade.payload), Apply(INITIAL, trade).windows;
            && |windows| == 4 && windows[3].seconds == 60
            && (forall i :: 0 <= i < 4 ==> windows[i].rows == [row])
            && Expire(windows[3], trade.wallNs).rows == [row]
  {
    var row := RowOf(trade.wallNs, trade.payload);
    ApplyWindows(INITIAL, trade);
    OneTradeKept(1, row);
    OneTradeKept(5, row);
    OneTradeKept(30, row);
    OneTradeKept(60, row);
  }

  lemma {:induction false} ShotsOfThree(cfg: Config, e: Event, early: int, tick: Event)
    requires !e.payload.SnapshotTick? && tick.payload.SnapshotTick?
    ensures var ops := [Reduce(e), ExtraRead(early), Reduce(tick)];
            var s, t := Expired(Apply(INITIAL, e), early), Apply(INITIAL, e);
            && LiveShots(cfg, INITIAL, ops) == [Shot(Shown(cfg, s, tick), s.connected)]
            && ReplayShots(cfg, INITIAL, EventsOf(ops)) == [Shot(Shown(cfg, t, tick), t.connected)]
  {
    var ops := [Reduce(e), ExtraRead(early), Reduce(tick)];
    var s, t := Expired(Apply(INITIAL, e), early), Apply(INITIAL, e);
    assert ops[1..] == [ExtraRead(early), Reduce(tick)] && ops[1..][1..] == [Reduce(tick)];
    assert EventsOf([Reduce(tick)]) == [tick];
    assert EventsOf(ops) == [e, tick] && [e, tick][1..] == [tick];
    assert LiveShots(cfg, s, [Reduce(tick)]) == [Shot(Shown(cfg, s, tick), s.connected)];
    assert LiveShots(cfg, t, ops[1..]) == LiveShots(cfg, s, [Reduce(tick)]);
    assert ReplayShots(cfg, t, [tick]) == [Shot(Shown(cfg, t, tick), t.connected)];
  }
}
