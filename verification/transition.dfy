/**
 One transition search (market_discovery/transition.py:68-203): the search loop and its expiry task,
 which interleave only at awaits. Both clocks advance together, so every deadline is a plain time.
 */
module Transition {
  import opened Wrappers
  import opened Models
  import opened Discovery

  const BEFORE := 5_000_000
  const AFTER := 5_000_000
  const INTERVAL := 500_000
  const LAST_SLOT := 20

  /** What one search is for: the market that starts at `startUs`, after `previous`. */
  datatype Plan = Plan(timeframe: Timeframe, previous: Option<Market>, startUs: int)
  {
    function SlotTime(slot: int): int { startUs - BEFORE + slot * INTERVAL }
  }

  /** The await the search loop stands at. */
  datatype Pc = WaitStart | WaitSlot | InRequest | WaitReady(market: Market, resolvedUs: int) | Done

  datatype Request = Request(slot: nat, startedUs: int)

  /** `expiry` holds while the expiry task has not run its body; `answered` are the times answers came. */
  datatype Search = Search(
    now: int, pc: Pc, expiry: bool, startedUs: int, slot: nat, attempts: nat, lastError: Option<string>,
    hidden: bool, nextReady: bool, finished: bool, expiryEmitted: bool,
    emitted: seq<Published>, requests: seq<Request>, answered: seq<int>, result: Option<TransitionResult>)

  function Entered(now: int): Search {
    Search(now, WaitStart, false, now, 0, 0, None, false, false, false, false, [], [], [], None)
  }

  function LivePrevious(previous: Option<Market>, now: int): Option<Market> {
    if previous.Some? && now < previous.value.endUs then previous else None
  }

  function Emit(p: Plan, s: Search, state: DiscoveryState, current: Option<Market>, next: Option<Market>): Search {
    s.(emitted := s.emitted + [Published(s.now, state, current, next, p.startUs, s.attempts, s.lastError)])
  }

  function Hide(p: Plan, s: Search): Search {
    Emit(p, s.(hidden := true, expiryEmitted := true), SEARCHING_NEXT, None, None)
  }

  function HideWhenDue(p: Plan, s: Search): Search {
    if s.now >= p.startUs && !s.hidden && !s.expiryEmitted then Hide(p, s) else s
  }

  /** The first slot from `slot` on whose time has not passed, or 21. */
  function SkipPassed(p: Plan, slot: nat, now: int): (r: nat)
    ensures slot <= r && (slot <= LAST_SLOT + 1 ==> r <= LAST_SLOT + 1)
    ensures r <= LAST_SLOT ==> now <= p.SlotTime(r)
    ensures forall k :: slot <= k < r ==> p.SlotTime(k) < now
    decreases LAST_SLOT + 1 - slot
  {
    if slot <= LAST_SLOT && p.SlotTime(slot) < now then SkipPassed(p, slot + 1, now) else slot
  }

  function Finish(p: Plan, s: Search, result: TransitionResult): Search {
    s.(pc := Done, finished := true, expiry := false, result := Some(result))
  }

  function Fail(p: Plan, s: Search): Search {
    Finish(p, Emit(p, s, TRANSITION_FAILED, None, None),
           TransitionResult(false, p.previous, None, p.startUs, s.startedUs, None, s.attempts, None,
                            Some(OrNotFound(s.lastError))))
  }

  function Succeed(p: Plan, s: Search, market: Market, resolvedUs: int, delayMs: int): Search {
    Finish(p, Emit(p, s, ACTIVE, Some(market), None),
           TransitionResult(true, p.previous, Some(market), p.startUs, s.startedUs, Some(resolvedUs), s.attempts,
                            Some(delayMs), None))
  }

  /** Go on to the next slot that has not passed, or give up after the last. */
  function NextSlot(p: Plan, s: Search, from: nat): Search {
    var slot := SkipPassed(p, from, s.now);
    if slot <= LAST_SLOT then s.(slot := slot, pc := WaitSlot) else Fail(p, s.(slot := slot))
  }

  // The sections between awaits.

  /** The first publication, with the expiry task created. */
  function Begun(p: Plan, s: Search): Search {
    Emit(p, s.(startedUs := s.now), SEARCHING_NEXT, LivePrevious(p.previous, s.now), None)
    .(hidden := p.previous.None? || s.now >= p.startUs, expiry := true)
  }

  function BeginSearch(p: Plan, s: Search): Search {
    NextSlot(p, Begun(p, s), 0)
  }

  function StartRequest(p: Plan, s: Search): Search {
    var shown := HideWhenDue(p, s);
    shown.(requests := s.requests + [Request(s.slot, s.now)], pc := InRequest)
  }

  function TakeMarket(p: Plan, s: Search, market: Market): Search {
    var found := Counted(s, None);
    if s.now < p.startUs then
      Emit(p, found.(nextReady := true, pc := WaitReady(market, s.now)),
           NEXT_READY, LivePrevious(p.previous, s.now), Some(market))
    else Succeed(p, found, market, s.now, (s.now - p.startUs) / 1000)
  }

  /** The search with one more answered request. */
  function Counted(s: Search, lastError: Option<string>): Search {
    s.(attempts := s.attempts + 1, answered := s.answered + [s.now], lastError := lastError)
  }

  function TakeMiss(p: Plan, s: Search, error: Option<string>): Search {
    GoOn(p, Counted(s, Some(OrNotFound(error))), s.slot + 1)
  }

  /** After a miss: hide the previous market if that is due, then look for the next slot. */
  function GoOn(p: Plan, s: Search, from: nat): Search {
    NextSlot(p, HideWhenDue(p, s), from)
  }

  function TakeAnswer(p: Plan, s: Search, answer: Answer): Search {
    if answer.Found? then TakeMarket(p, s, answer.market) else TakeMiss(p, s, answer.error)
  }

  function Activate(p: Plan, s: Search): Search
    requires s.pc.WaitReady?
  {
    Succeed(p, s, s.pc.market, s.pc.resolvedUs, 0)
  }

  function Expire(p: Plan, s: Search): Search {
    var ran := s.(expiry := false);
    if s.finished || s.nextReady || s.hidden || s.expiryEmitted then ran else Hide(p, ran)
  }

  // The step system.

  datatype Step = Advance(to: int) | Begin | SlotDue | Answered(answer: Answer) | ReadyDue | ExpiryDue

  /** The time the search loop sleeps until, if it sleeps. */
  function SearchTimer(p: Plan, s: Search): Option<int> {
    match s.pc
    case WaitStart => Some(p.startUs - BEFORE)
    case WaitSlot => Some(p.SlotTime(s.slot))
    case WaitReady(_, _) => Some(p.startUs)
    case InRequest => None
    case Done => None
  }

  /** Time moves only while nothing is due, and never past a timer. */
  predicate Enabled(p: Plan, s: Search, step: Step) {
    match step
    case Advance(to) =>
      && s.now < to
      && (SearchTimer(p, s).Some? ==> to <= SearchTimer(p, s).value)
      && (s.expiry ==> to <= p.startUs)
    case Begin => s.pc.WaitStart? && s.now >= p.startUs - BEFORE
    case SlotDue => s.pc.WaitSlot? && s.now >= p.SlotTime(s.slot)
    case Answered(answer) => s.pc.InRequest? && Resolves(answer, p.timeframe, p.startUs)
    case ReadyDue => s.pc.WaitReady? && s.now >= p.startUs
    case ExpiryDue => s.expiry && s.now >= p.startUs
  }

  function Do(p: Plan, s: Search, step: Step): Search
    requires Enabled(p, s, step)
  {
    match step
    case Advance(to) => s.(now := to)
    case Begin => BeginSearch(p, s)
    case SlotDue => StartRequest(p, s)
    case Answered(answer) => TakeAnswer(p, s, answer)
    case ReadyDue => Activate(p, s)
    case ExpiryDue => Expire(p, s)
  }

  predicate Goes(p: Plan, s: Search, step: Step, t: Search) {
    Enabled(p, s, step) && t == Do(p, s, step)
  }

  /** `states` are the states a run of `steps` goes through. */
  ghost predicate IsRun(p: Plan, states: seq<Search>, steps: seq<Step>) {
    && |states| == |steps| + 1
    && (forall i {:trigger steps[i]} :: 0 <= i < |steps| ==> Goes(p, states[i], steps[i], states[i + 1]))
  }

  ghost predicate SearchRun(p: Plan, states: seq<Search>, steps: seq<Step>) {
    IsRun(p, states, steps) && states[0] == Entered(states[0].now)
  }

  // The same sections on the variables that the search loop and the expiry task share.

  class SearchTask {
    const plan: Plan
    var now: int
    var pc: Pc
    var expiryPending: bool
    var searchStarted: int
    var slot: nat
    var attempts: nat
    var lastError: Option<string>
    var previousHidden: bool
    var nextReady: bool
    var transitionFinished: bool
    var expirySnapshotEmitted: bool
    var emitted: seq<Published>
    var requests: seq<Request>
    var answered: seq<int>
    var result: Option<TransitionResult>

    ghost function View(): Search
      reads this
    {
      Search(now, pc, expiryPending, searchStarted, slot, attempts, lastError, previousHidden, nextReady,
             transitionFinished, expirySnapshotEmitted, emitted, requests, answered, result)
    }

    constructor (plan: Plan, now: int)
      ensures this.plan == plan && View() == Entered(now)
    {
      this.plan, this.now, searchStarted, pc := plan, now, now, WaitStart;
      expiryPending, previousHidden, nextReady := false, false, false;
      transitionFinished, expirySnapshotEmitted := false, false;
      slot, attempts, lastError := 0, 0, None;
      emitted, requests, answered, result := [], [], [], None;
    }

    /** `snapshot`. */
    method Publish(state: DiscoveryState, current: Option<Market>, next: Option<Market>)
      modifies this`emitted
      ensures View() == Emit(plan, old(View()), state, current, next)
    {
      emitted := emitted + [Published(now, state, current, next, plan.startUs, attempts, lastError)];
    }

    method HidePreviousWhenDue()
      modifies this
      ensures View() == HideWhenDue(plan, old(View()))
    {
      if now >= plan.startUs && !previousHidden && !expirySnapshotEmitted {
        previousHidden, expirySnapshotEmitted := true, true;
        Publish(SEARCHING_NEXT, None, None);
      }
    }

    /** The skipping loop. */
    method SkipSlots(from: nat)
      modifies this`slot
      ensures slot == SkipPassed(plan, from, now)
    {
      slot := from;
      while slot <= LAST_SLOT && plan.SlotTime(slot) < now
        invariant SkipPassed(plan, slot, now) == SkipPassed(plan, from, now)
        decreases LAST_SLOT + 1 - slot
      {
        slot := slot + 1;
      }
    }

    /** Nothing found by the last slot. */
    method GiveUp()
      modifies this
      ensures View() == Fail(plan, old(View()))
    {
      Publish(TRANSITION_FAILED, None, None);
      Return(TransitionResult(false, plan.previous, None, plan.startUs, searchStarted, None, attempts, None,
                              Some(OrNotFound(lastError))));
    }

    /** Skip the slots that have passed, and go on to the next or give up. */
    method GoToNextSlot(from: nat)
      modifies this
      ensures View() == NextSlot(plan, old(View()), from)
    {
      SkipSlots(from);
      if slot <= LAST_SLOT {
        pc := WaitSlot;
      } else {
        GiveUp();
      }
    }

    /** Returning cancels the expiry task. */
    method Return(outcome: TransitionResult)
      modifies this
      ensures View() == Finish(plan, old(View()), outcome)
    {
      transitionFinished, expiryPending := true, false;
      result, pc := Some(outcome), Done;
    }

    method ActivateMarket(market: Market, resolvedUs: int, delayMs: int)
      modifies this
      ensures View() == Succeed(plan, old(View()), market, resolvedUs, delayMs)
    {
      Publish(ACTIVE, Some(market), None);
      Return(TransitionResult(true, plan.previous, Some(market), plan.startUs, searchStarted, Some(resolvedUs),
                              attempts, Some(delayMs), None));
    }

    method Announce()
      modifies this
      ensures View() == Begun(plan, old(View()))
    {
      searchStarted := now;
      Publish(SEARCHING_NEXT, LivePrevious(plan.previous, searchStarted), None);
      previousHidden := plan.previous.None? || searchStarted >= plan.startUs;
      expiryPending := true;
    }

    method StartSearch()
      modifies this
      ensures View() == BeginSearch(plan, old(View()))
    {
      Announce();
      GoToNextSlot(0);
    }

    method SendRequest()
      modifies this
      ensures View() == StartRequest(plan, old(View()))
    {
      HidePreviousWhenDue();
      requests := requests + [Request(slot, now)];
      pc := InRequest;
    }

    method CountAnswer(error: Option<string>)
      modifies this
      ensures View() == Counted(old(View()), error)
    {
      attempts, answered, lastError := attempts + 1, answered + [now], error;
    }

    method ReceiveMarket(market: Market)
      modifies this
      ensures View() == TakeMarket(plan, old(View()), market)
    {
      var resolvedAt := now;
      CountAnswer(None);
      if resolvedAt < plan.startUs {
        nextReady, pc := true, WaitReady(market, resolvedAt);
        Publish(NEXT_READY, LivePrevious(plan.previous, resolvedAt), Some(market));
      } else {
        ActivateMarket(market, resolvedAt, (resolvedAt - plan.startUs) / 1000);
      }
    }

    method ReceiveMiss(error: Option<string>)
      modifies this
      ensures View() == TakeMiss(plan, old(View()), error)
    {
      var next := slot + 1;
      CountAnswer(Some(OrNotFound(error)));
      HideAndGoOn(next);
    }

    method HideAndGoOn(from: nat)
      modifies this
      ensures View() == GoOn(plan, old(View()), from)
    {
      HidePreviousWhenDue();
      GoToNextSlot(from);
    }

    method Receive(answer: Answer)
      modifies this
      ensures View() == TakeAnswer(plan, old(View()), answer)
    {
      if answer.Found? {
        ReceiveMarket(answer.market);
      } else {
        ReceiveMiss(answer.error);
      }
    }

    method TransitionTimeReached()
      requires pc.WaitReady?
      modifies this
      ensures View() == Activate(plan, old(View()))
    {
      ActivateMarket(pc.market, pc.resolvedUs, 0);
    }

    /** The body of `expire_previous_at_transition` after its sleep. */
    method ExpirePrevious()
      modifies this
      ensures View() == Expire(plan, old(View()))
    {
      expiryPending := false;
      if transitionFinished || nextReady || previousHidden || expirySnapshotEmitted {
        return;
      }
      previousHidden, expirySnapshotEmitted := true, true;
      Publish(SEARCHING_NEXT, None, None);
    }

    /** Whatever happens to the search between two awaits is one step of the system. */
    method Perform(step: Step)
      requires Enabled(plan, View(), step)
      modifies this
      ensures View() == Do(plan, old(View()), step)
    {
      match step {
        case Advance(to) => now := to;
        case Begin => StartSearch();
        case SlotDue => SendRequest();
        case Answered(answer) => Receive(answer);
        case ReadyDue => TransitionTimeReached();
        case ExpiryDue => ExpirePrevious();
      }
    }
  }

  // The language of published states.

  predicate LiveAtStart(p: Plan, s: Search) {
    p.previous.Some? && s.startedUs < p.startUs
  }

  predicate IsFirst(p: Plan, s: Search, e: Published) {
    && e.state == SEARCHING_NEXT && e.atUs == s.startedUs
    && e.current == LivePrevious(p.previous, s.startedUs) && e.next.None?
  }

  predicate IsHide(p: Plan, e: Published) {
    e.state == SEARCHING_NEXT && e.atUs >= p.startUs && e.current.None? && e.next.None?
  }

  /** Searching, then at most one hiding of a previous market that was live when the search started. */
  predicate Searching(p: Plan, s: Search, es: seq<Published>) {
    && |es| == (if s.expiryEmitted then 2 else 1)
    && IsFirst(p, s, es[0])
    && (s.expiryEmitted ==> IsHide(p, es[1]) && LiveAtStart(p, s))
  }

  predicate IsNextReady(p: Plan, e: Published, market: Market, resolvedUs: int) {
    && e.state == NEXT_READY && e.atUs == resolvedUs < p.startUs && e.next == Some(market)
    && e.current == LivePrevious(p.previous, resolvedUs)
  }

  predicate IsActive(p: Plan, e: Published, market: Market) {
    e.state == ACTIVE && e.atUs >= p.startUs && e.current == Some(market) && e.next.None?
  }

  predicate IsFailed(e: Published) {
    e.state == TRANSITION_FAILED && e.current.None? && e.next.None?
  }

  function Front(es: seq<Published>): seq<Published>
    requires es != []
  {
    es[..|es| - 1]
  }

  function Last(es: seq<Published>): Published
    requires es != []
  {
    es[|es| - 1]
  }

  /** Everything published so far, at each point of the search. */
  predicate Language(p: Plan, s: Search) {
    match s.pc
    case WaitStart => s.emitted == [] && !s.expiryEmitted && !s.nextReady && !s.expiry
    case WaitSlot => Searching(p, s, s.emitted) && !s.nextReady
    case InRequest => Searching(p, s, s.emitted) && !s.nextReady
    case WaitReady(market, at) => s.nextReady && ReadyShown(p, s, s.emitted, market, at)
    case Done => s.emitted != [] && Searched(p, s) && s.result.Some? && EndsWell(p, s, s.result.value)
  }

  /** Searching, then NEXT_READY; a hide never precedes it, because the transition time has not come. */
  predicate ReadyShown(p: Plan, s: Search, es: seq<Published>, market: Market, at: int) {
    es != [] && !s.expiryEmitted && Searching(p, s, Front(es)) && IsNextReady(p, Last(es), market, at)
  }

  predicate Searched(p: Plan, s: Search)
    requires s.emitted != []
  {
    if s.nextReady then
      && s.result.Some? && s.result.value.success && s.result.value.newMarket.Some? && s.result.value.resolvedUs.Some?
      && ReadyShown(p, s, Front(s.emitted), s.result.value.newMarket.value, s.result.value.resolvedUs.value)
    else Searching(p, s, Front(s.emitted))
  }

  /** The last publication and the result say the same. */
  predicate EndsWell(p: Plan, s: Search, r: TransitionResult)
    requires s.emitted != []
  {
    && r.Valid() && r.attempts == s.attempts && r.previous == p.previous && r.expectedUs == p.startUs
    && r.searchStartedUs == s.startedUs
    && (LiveAtStart(p, s) && !s.nextReady && !s.expiryEmitted ==> r.resolvedUs == Some(p.startUs))
    && (if r.success then
          && IsActive(p, Last(s.emitted), r.newMarket.value)
          && r.newMarket.value.endUs == p.startUs + DurationUs(p.timeframe)
        else IsFailed(Last(s.emitted)))
  }

  // The flags.

  predicate Flags(p: Plan, s: Search) {
    && (s.finished <==> s.pc.Done?) && (s.finished ==> !s.expiry)
    && (s.pc.WaitSlot? || s.pc.InRequest? ==>
          && (s.hidden <==> !LiveAtStart(p, s) || s.expiryEmitted)
          && (s.expiry || s.hidden)
          && (s.lastError.Some? ==> s.lastError.value != ""))
    && (s.pc.WaitStart? ==> s.lastError.None?)
    && (s.pc.WaitReady? ==> Resolves(Found(s.pc.market), p.timeframe, p.startUs))
  }

  /** No deadline is overrun. */
  predicate Timely(p: Plan, s: Search) {
    && (s.pc.WaitSlot? ==> s.slot <= LAST_SLOT && s.now <= p.SlotTime(s.slot))
    && (s.pc.WaitReady? ==> s.now <= p.startUs)
    && (s.expiry ==> s.now <= p.startUs || s.now == s.startedUs)
    && (s.expiryEmitted ==> s.now >= p.startUs)
    && (s.pc.WaitStart? ==> s.now <= p.startUs - BEFORE || s.now == s.startedUs)
    && (!s.pc.WaitStart? ==> p.startUs - BEFORE <= s.startedUs <= s.now)
  }

  // The requests.

  /** Request `i` started exactly at its slot's time, after the answer to the one before it. */
  predicate RequestFits(p: Plan, s: Search, i: nat)
    requires i < |s.requests|
  {
    var r := s.requests[i];
    && r.slot <= LAST_SLOT && r.startedUs == p.SlotTime(r.slot) && s.startedUs <= r.startedUs
    && (i > 0 ==> i <= |s.answered| && s.requests[i - 1].slot < r.slot && s.answered[i - 1] <= r.startedUs)
    && (i < |s.answered| ==> r.startedUs <= s.answered[i])
  }

  ghost predicate Requests(p: Plan, s: Search) {
    && |s.answered| == s.attempts
    && |s.requests| == s.attempts + (if s.pc.InRequest? then 1 else 0)
    && (forall i :: 0 <= i < |s.requests| ==> RequestFits(p, s, i))
    && (forall i :: 0 <= i < |s.answered| ==> s.answered[i] <= s.now)
    && (s.requests != [] && s.pc.WaitSlot? ==> s.requests[|s.requests| - 1].slot < s.slot)
    && (s.pc.InRequest? ==> s.requests[|s.requests| - 1] == Request(s.slot, p.SlotTime(s.slot)))
    && (s.pc.InRequest? ==> s.slot <= LAST_SLOT && p.SlotTime(s.slot) <= s.now)
    && (s.pc.WaitStart? ==> s.requests == [])
  }

  /** All but the bookkeeping of the requests. */
  predicate Told(p: Plan, s: Search) {
    Language(p, s) && Flags(p, s) && Timely(p, s)
  }

  ghost predicate Inv(p: Plan, s: Search) {
    Told(p, s) && Requests(p, s)
  }

  lemma AppendLast(es: seq<Published>, e: Published)
    ensures Front(es + [e]) == es && Last(es + [e]) == e
  {
  }

  /** The search loop is under way: what holds at each of its awaits and between them. */
  predicate InLoop(p: Plan, s: Search) {
    && Searching(p, s, s.emitted) && !s.nextReady && !s.finished
    && (s.hidden <==> !LiveAtStart(p, s) || s.expiryEmitted)
    && (s.expiry || s.hidden)
    && (s.lastError.Some? ==> s.lastError.value != "")
    && (s.expiry ==> s.now <= p.startUs || s.now == s.startedUs)
    && (s.expiryEmitted ==> s.now >= p.startUs)
    && p.startUs - BEFORE <= s.startedUs <= s.now
  }

  lemma HideKeeps(p: Plan, s: Search)
    requires InLoop(p, s) && s.now >= p.startUs && !s.hidden
    ensures InLoop(p, Hide(p, s))
  {
  }

  lemma NextSlotKeeps(p: Plan, s: Search, from: nat)
    requires InLoop(p, s) && (from <= LAST_SLOT || s.now >= p.startUs + AFTER)
    ensures Told(p, NextSlot(p, s, from))
  {
    assert p.SlotTime(LAST_SLOT) == p.startUs + AFTER;
    var slot := SkipPassed(p, from, s.now);
    if slot > LAST_SLOT {
      AppendLast(s.emitted, Published(s.now, TRANSITION_FAILED, None, None, p.startUs, s.attempts, s.lastError));
    }
  }

  lemma BeginKeeps(p: Plan, s: Search)
    requires Inv(p, s) && Enabled(p, s, Begin)
    ensures Told(p, BeginSearch(p, s))
  {
    NextSlotKeeps(p, Begun(p, s), 0);
  }

  lemma LoopInv(p: Plan, s: Search)
    requires Told(p, s) && (s.pc.WaitSlot? || s.pc.InRequest?)
    ensures InLoop(p, s)
  {
  }

  lemma StartKeeps(p: Plan, s: Search)
    requires Inv(p, s) && Enabled(p, s, SlotDue)
    ensures Told(p, StartRequest(p, s))
  {
    LoopInv(p, s);
    if s.now >= p.startUs && !s.hidden {
      HideKeeps(p, s);
    }
  }

  lemma SucceedKeeps(p: Plan, s: Search, market: Market, resolvedUs: int, delayMs: int)
    requires if s.nextReady then ReadyShown(p, s, s.emitted, market, resolvedUs) else Searching(p, s, s.emitted)
    requires Resolves(Found(market), p.timeframe, p.startUs) && delayMs >= 0
    requires s.now >= p.startUs && p.startUs - BEFORE <= s.startedUs <= s.now
    requires LiveAtStart(p, s) && !s.nextReady && !s.expiryEmitted ==> resolvedUs == p.startUs
    ensures Told(p, Succeed(p, s, market, resolvedUs, delayMs))
  {
    AppendLast(s.emitted, Published(s.now, ACTIVE, Some(market), None, p.startUs, s.attempts, s.lastError));
  }

  lemma FoundKeeps(p: Plan, s: Search, market: Market)
    requires InLoop(p, s) && Resolves(Found(market), p.timeframe, p.startUs)
    ensures Told(p, TakeMarket(p, s, market))
  {
    var found := Counted(s, None);
    if s.now < p.startUs {
      AppendLast(s.emitted, Published(s.now, NEXT_READY, LivePrevious(p.previous, s.now), Some(market), p.startUs,
                                      found.attempts, None));
    } else {
      SucceedKeeps(p, found, market, s.now, (s.now - p.startUs) / 1000);
    }
  }

  lemma MissInLoop(p: Plan, s: Search, error: string)
    requires InLoop(p, s) && error != ""
    ensures InLoop(p, HideWhenDue(p, Counted(s, Some(error))))
  {
    var missed := Counted(s, Some(error));
    assert InLoop(p, missed);
    if s.now >= p.startUs && !s.hidden {
      HideKeeps(p, missed);
    }
  }

  lemma GoOnKeeps(p: Plan, s: Search, from: nat)
    requires InLoop(p, HideWhenDue(p, s)) && (from <= LAST_SLOT || s.now >= p.startUs + AFTER)
    ensures Told(p, GoOn(p, s, from))
  {
    HideRequests(p, s);
    NextSlotKeeps(p, HideWhenDue(p, s), from);
  }

  lemma SlotAfter(p: Plan, slot: nat, now: int)
    requires slot <= LAST_SLOT && p.SlotTime(slot) <= now
    ensures slot + 1 <= LAST_SLOT || now >= p.startUs + AFTER
  {
  }

  lemma MissingKeeps(p: Plan, s: Search, missed: Search, error: string)
    requires InLoop(p, s) && s.slot <= LAST_SLOT && p.SlotTime(s.slot) <= s.now
    requires error != "" && missed == Counted(s, Some(error))
    ensures Told(p, GoOn(p, missed, s.slot + 1))
  {
    SlotAfter(p, s.slot, s.now);
    MissInLoop(p, s, error);
    GoOnKeeps(p, missed, s.slot + 1);
  }

  lemma ExpireKeeps(p: Plan, s: Search)
    requires Inv(p, s) && Enabled(p, s, ExpiryDue)
    ensures Told(p, Expire(p, s))
  {
    if s.pc.WaitSlot? || s.pc.InRequest? {
      LoopInv(p, s);
      if !s.hidden {
        HideKeeps(p, s);
      }
    }
  }

  lemma DoKeepsTold(p: Plan, s: Search, step: Step)
    requires Inv(p, s) && Enabled(p, s, step)
    ensures Told(p, Do(p, s, step))
  {
    match step {
      case Advance(_) =>
      case Begin => BeginKeeps(p, s);
      case SlotDue => StartKeeps(p, s);
      case Answered(answer) =>
        LoopInv(p, s);
        if answer.Found? {
          FoundKeeps(p, s, answer.market);
        } else {
          MissingKeeps(p, s, Counted(s, Some(OrNotFound(answer.error))), OrNotFound(answer.error));
        }
      case ReadyDue => SucceedKeeps(p, s, s.pc.market, s.pc.resolvedUs, 0);
      case ExpiryDue => ExpireKeeps(p, s);
    }
  }

  // The same for the requests.

  /** The request bookkeeping of a state, apart from where the loop stands. */
  predicate SameRequests(s: Search, t: Search) {
    s.requests == t.requests && s.answered == t.answered && s.attempts == t.attempts && s.startedUs == t.startedUs
  }

  lemma FitsSame(p: Plan, s: Search, t: Search)
    requires SameRequests(s, t)
    requires forall i :: 0 <= i < |s.requests| ==> RequestFits(p, s, i)
    ensures forall i :: 0 <= i < |t.requests| ==> RequestFits(p, t, i)
  {
    forall i | 0 <= i < |t.requests| ensures RequestFits(p, t, i) {
      assert RequestFits(p, s, i);
    }
  }

  lemma BeginRequests(p: Plan, s: Search)
    requires Inv(p, s) && Enabled(p, s, Begin)
    ensures Requests(p, BeginSearch(p, s))
  {
  }

  lemma StartRequests(p: Plan, s: Search)
    requires Inv(p, s) && Enabled(p, s, SlotDue)
    ensures Requests(p, StartRequest(p, s))
  {
    var t := StartRequest(p, s);
    forall i | 0 <= i < |t.requests| ensures RequestFits(p, t, i) {
      if i < |s.requests| {
        assert RequestFits(p, s, i) && t.requests[i] == s.requests[i];
      }
    }
  }

  lemma NextSlotRequests(p: Plan, s: Search, from: nat)
    ensures var t := NextSlot(p, s, from);
            && SameRequests(s, t) && t.now == s.now && (t.pc.WaitSlot? || t.pc.Done?)
            && (t.pc.WaitSlot? ==> t.slot >= from)
  {
  }

  lemma HideRequests(p: Plan, s: Search)
    ensures SameRequests(s, HideWhenDue(p, s)) && HideWhenDue(p, s).now == s.now
  {
  }

  lemma MarketBookkeeping(p: Plan, s: Search, market: Market)
    ensures var t := TakeMarket(p, s, market);
            SameRequests(Counted(s, None), t) && t.now == s.now && (t.pc.WaitReady? || t.pc.Done?)
  {
  }

  lemma MissBookkeeping(p: Plan, s: Search, error: Option<string>)
    ensures var t := TakeMiss(p, s, error);
            && SameRequests(Counted(s, None), t) && t.now == s.now && (t.pc.WaitSlot? || t.pc.Done?)
            && (t.pc.WaitSlot? ==> t.slot > s.slot)
  {
    var missed := Counted(s, Some(OrNotFound(error)));
    HideRequests(p, missed);
    NextSlotRequests(p, HideWhenDue(p, missed), s.slot + 1);
  }

  lemma AnswerBookkeeping(p: Plan, s: Search, answer: Answer)
    ensures var t := TakeAnswer(p, s, answer);
            && SameRequests(Counted(s, None), t) && t.now == s.now && !t.pc.InRequest? && !t.pc.WaitStart?
            && (t.pc.WaitSlot? ==> t.slot > s.slot)
  {
    if answer.Missing? {
      MissBookkeeping(p, s, answer.error);
    } else {
      MarketBookkeeping(p, s, answer.market);
    }
  }

  lemma AnswerRequests(p: Plan, s: Search, answer: Answer)
    requires Requests(p, s) && s.pc.InRequest?
    ensures Requests(p, TakeAnswer(p, s, answer))
  {
    AnswerBookkeeping(p, s, answer);
    var t := TakeAnswer(p, s, answer);
    forall i | 0 <= i < |t.requests| ensures RequestFits(p, t, i) {
      assert RequestFits(p, s, i);
    }
  }

  lemma DoKeepsRequests(p: Plan, s: Search, step: Step)
    requires Inv(p, s) && Enabled(p, s, step)
    ensures Requests(p, Do(p, s, step))
  {
    match step {
      case Begin => BeginRequests(p, s);
      case SlotDue => StartRequests(p, s);
      case Answered(answer) => AnswerRequests(p, s, answer);
      case Advance(_) => FitsSame(p, s, Do(p, s, step));
      case ReadyDue => FitsSame(p, s, Do(p, s, step));
      case ExpiryDue => FitsSame(p, s, Do(p, s, step));
    }
  }

  lemma StepInv(p: Plan, s: Search, step: Step, t: Search)
    requires Inv(p, s) && Goes(p, s, step, t)
    ensures Inv(p, t)
  {
    DoKeepsTold(p, s, step);
    DoKeepsRequests(p, s, step);
  }

  lemma {:induction false} RunInv(p: Plan, states: seq<Search>, steps: seq<Step>, i: nat)
    requires SearchRun(p, states, steps) && i < |states|
    ensures Inv(p, states[i])
  {
    if i > 0 {
      RunInv(p, states, steps, i - 1);
      StepInv(p, states[i - 1], steps[i - 1], states[i]);
    }
  }

  // No expired market.

  /** Some task is due at this very moment. */
  predicate SomethingDue(p: Plan, s: Search) {
    (s.expiry && s.now >= p.startUs) || (SearchTimer(p, s).Some? && s.now >= SearchTimer(p, s).value)
  }

  /** The latest publication: the search's own, or before it has any, the one that was there when it was entered. */
  function Latest(earlier: Option<Published>, s: Search): Option<Published> {
    if s.emitted == [] then earlier else Some(Last(s.emitted))
  }

  predicate Shows(shown: Option<Published>, market: Option<Market>) {
    shown.Some? && market.Some? && (shown.value.current == market || shown.value.next == market)
  }

  lemma NoEarlyExpiry(p: Plan, states: seq<Search>, steps: seq<Step>, i: nat)
    requires SearchRun(p, states, steps) && i < |states| && states[i].pc.WaitStart?
    ensures !states[i].expiry
  {
    RunInv(p, states, steps, i);
  }

  lemma WaitedBefore(p: Plan, states: seq<Search>, steps: seq<Step>, i: nat)
    requires SearchRun(p, states, steps) && 0 < i < |states| && states[i].pc.WaitStart?
    ensures states[i - 1].pc.WaitStart? && states[i] == states[i - 1].(now := states[i].now)
  {
    var s, step := states[i - 1], steps[i - 1];
    assert Goes(p, s, step, states[i]);
    OnlyWaits(p, s, step);
    NoEarlyExpiry(p, states, steps, i - 1);
    StaysWaiting(p, s, step);
  }

  /** A search that has not begun is as it was entered, but for the time. */
  lemma {:induction false} NotBegun(p: Plan, states: seq<Search>, steps: seq<Step>, i: nat)
    requires SearchRun(p, states, steps) && i < |states| && states[i].pc.WaitStart?
    ensures states[i] == Entered(states[0].now).(now := states[i].now)
  {
    if i > 0 {
      WaitedBefore(p, states, steps, i);
      NotBegun(p, states, steps, i - 1);
    }
  }

  lemma OnlyWaits(p: Plan, s: Search, step: Step)
    requires Enabled(p, s, step) && Do(p, s, step).pc.WaitStart?
    ensures s.pc.WaitStart? && (step.Advance? || step.ExpiryDue?)
  {
    if step.Begin? {
      NextSlotRequests(p, Begun(p, s), 0);
    } else if step.Answered? {
      AnswerBookkeeping(p, s, step.answer);
    }
  }

  lemma StaysWaiting(p: Plan, s: Search, step: Step)
    requires Enabled(p, s, step) && step.Advance?
    ensures Do(p, s, step) == s.(now := Do(p, s, step).now)
  {
  }

  /**
   The previous market ends where the search's market starts. Whatever the interleaving, and even while a
   request is in flight, after that instant (and at it, once nothing is due) the latest publication shows the
   previous market if and only if the search has not begun and the publication it found does; and it has not
   begun only in the very instant it was entered, too late.
   */
  lemma NoExpiredMarket(p: Plan, earlier: Option<Published>, states: seq<Search>, steps: seq<Step>, i: nat)
    requires SearchRun(p, states, steps) && i < |states|
    requires p.previous.Some? && p.previous.value.endUs == p.startUs
    requires states[i].now > p.startUs || (states[i].now == p.startUs && !SomethingDue(p, states[i]))
    ensures Shows(Latest(earlier, states[i]), p.previous) <==> states[i].pc.WaitStart? && Shows(earlier, p.previous)
    ensures states[i].pc.WaitStart? ==> states[i].now == states[0].now > p.startUs
  {
    RunInv(p, states, steps, i);
    if states[i].pc.WaitStart? {
      NotBegun(p, states, steps, i);
    } else {
      NotShown(p, states[i]);
    }
  }

  /** So a search entered by then never leaves an expired market on show, whatever was published before. */
  lemma NoneWhenOnTime(p: Plan, earlier: Option<Published>, states: seq<Search>, steps: seq<Step>, i: nat)
    requires SearchRun(p, states, steps) && i < |states| && states[0].now <= p.startUs < states[i].now
    requires p.previous.Some? && p.previous.value.endUs == p.startUs
    ensures !Shows(Latest(earlier, states[i]), p.previous)
  {
    NoExpiredMarket(p, earlier, states, steps, i);
  }

  lemma NotShown(p: Plan, s: Search)
    requires Inv(p, s) && !s.pc.WaitStart? && p.previous.Some? && p.previous.value.endUs == p.startUs
    requires s.now > p.startUs || (s.now == p.startUs && !SomethingDue(p, s))
    ensures s.emitted != [] && !Shows(Some(Last(s.emitted)), p.previous)
  {
  }

  // The whole word of states a search publishes.

  function Word(es: seq<Published>): seq<DiscoveryState> {
    if es == [] then [] else Word(Front(es)) + [Last(es).state]
  }

  predicate InLanguage(word: seq<DiscoveryState>) {
    || word == [SEARCHING_NEXT, ACTIVE]
    || word == [SEARCHING_NEXT, TRANSITION_FAILED]
    || word == [SEARCHING_NEXT, SEARCHING_NEXT, ACTIVE]
    || word == [SEARCHING_NEXT, SEARCHING_NEXT, TRANSITION_FAILED]
    || word == [SEARCHING_NEXT, NEXT_READY, ACTIVE]
  }

  lemma {:induction false} SearchingWord(p: Plan, s: Search, es: seq<Published>)
    requires Searching(p, s, es)
    ensures Word(es) == if s.expiryEmitted then [SEARCHING_NEXT, SEARCHING_NEXT] else [SEARCHING_NEXT]
  {
    assert Word(es[..0]) == [];
    assert es[..1][..0] == es[..0];
    assert Word(es[..1]) == [SEARCHING_NEXT];
    if s.expiryEmitted {
      assert Front(es) == es[..1];
    } else {
      assert es == es[..1];
    }
  }

  lemma WordOfDone(p: Plan, s: Search)
    requires Inv(p, s) && s.pc.Done?
    ensures |s.emitted| == (if s.nextReady || s.expiryEmitted then 3 else 2)
    ensures InLanguage(Word(s.emitted))
  {
    var es := s.emitted;
    if s.nextReady {
      SearchingWord(p, s, Front(Front(es)));
      assert Word(Front(es)) == [SEARCHING_NEXT, NEXT_READY];
    } else {
      SearchingWord(p, s, Front(es));
    }
  }

  /** A market is shown as current up to, and not at, its end. */
  predicate IsShownAt(market: Market, atUs: int) { atUs < market.endUs }

  function ShownWhile(previous: Option<Market>, atUs: int): Option<Market> {
    match previous
    case None => None
    case Some(market) => if IsShownAt(market, atUs) then Some(market) else None
  }

  /**
   A search that has returned published one of five words. A second SEARCHING_NEXT occurs only when the
   previous market was live at the start, and it hides that market; it never follows NEXT_READY.
   */
  lemma StateLanguage(p: Plan, states: seq<Search>, steps: seq<Step>, i: nat)
    requires SearchRun(p, states, steps) && i < |states| && states[i].pc.Done?
    ensures InLanguage(Word(states[i].emitted))
    ensures var es := states[i].emitted;
            && states[i].result.Some? && states[i].result.value.Valid()
            && |es| >= 2 && (es[1].state == NEXT_READY ==> |es| == 3)
            && es[0].current == ShownWhile(p.previous, states[i].startedUs)
            && (es[1].state == SEARCHING_NEXT ==>
                  LiveAtStart(p, states[i]) && es[1].current.None? && es[1].atUs >= p.startUs)
            && (es[1].state == NEXT_READY ==>
                  && es[1].atUs < p.startUs && es[1].next == es[2].current
                  && es[1].current == ShownWhile(p.previous, es[1].atUs))
            && (Last(es).state == ACTIVE <==> states[i].result.value.success)
            && (Last(es).state == ACTIVE ==>
                  Last(es).current == states[i].result.value.newMarket && Last(es).atUs >= p.startUs)
            && (Last(es).state == TRANSITION_FAILED ==> Last(es).current.None?)
  {
    RunInv(p, states, steps, i);
    WordOfDone(p, states[i]);
  }

  lemma DoneStays(p: Plan, s: Search, step: Step)
    requires Inv(p, s) && s.pc.Done? && Enabled(p, s, step)
    ensures Do(p, s, step) == s.(now := Do(p, s, step).now)
  {
  }

  /** Nothing is published, and the result does not change, after a search has returned. */
  lemma {:induction false} NothingAfterwards(p: Plan, states: seq<Search>, steps: seq<Step>, i: nat, j: nat)
    requires SearchRun(p, states, steps) && i <= j < |states| && states[i].pc.Done?
    ensures states[j] == states[i].(now := states[j].now)
  {
    if i < j {
      NothingAfterwards(p, states, steps, i, j - 1);
      RunInv(p, states, steps, j - 1);
      assert Goes(p, states[j - 1], steps[j - 1], states[j]);
      DoneStays(p, states[j - 1], steps[j - 1]);
    }
  }

  /**
   A previous market that was live at the start gets hidden in every search that fails, and in every
   search that succeeds without NEXT_READY unless its answer came exactly at the transition.
   */
  lemma HiddenWhenLate(p: Plan, states: seq<Search>, steps: seq<Step>, i: nat)
    requires SearchRun(p, states, steps) && i < |states| && states[i].pc.Done? && LiveAtStart(p, states[i])
    ensures var s := states[i];
            && s.result.Some? && |s.emitted| >= 2
            && (s.emitted[1].state != SEARCHING_NEXT && s.emitted[1].state != NEXT_READY ==>
                  s.result.value.resolvedUs == Some(p.startUs))
  {
    RunInv(p, states, steps, i);
  }

  // Slot discipline.

  lemma {:induction false} SlotsIncrease(p: Plan, s: Search, i: nat, j: nat)
    requires Requests(p, s) && i < j < |s.requests|
    ensures s.requests[i].slot < s.requests[j].slot
  {
    assert RequestFits(p, s, j);
    if i < j - 1 {
      SlotsIncrease(p, s, i, j - 1);
    }
  }

  lemma {:induction false} SlotAtLeastIndex(p: Plan, s: Search, i: nat)
    requires Requests(p, s) && i < |s.requests|
    ensures i <= s.requests[i].slot
  {
    assert RequestFits(p, s, i);
    if i > 0 {
      SlotAtLeastIndex(p, s, i - 1);
    }
  }

  /** Request `i` starts at its slot's time, in a slot that exists, and not before the search. */
  predicate OnTime(p: Plan, s: Search, r: Request) {
    && r.slot <= LAST_SLOT && r.startedUs == p.SlotTime(r.slot) && s.startedUs <= r.startedUs
    && p.startUs - BEFORE <= r.startedUs <= p.startUs + AFTER
  }

  lemma AllOnTime(p: Plan, s: Search)
    requires Requests(p, s)
    ensures |s.requests| <= 21
    ensures forall i :: 0 <= i < |s.requests| ==> OnTime(p, s, s.requests[i])
  {
    forall i | 0 <= i < |s.requests| ensures OnTime(p, s, s.requests[i]) {
      assert RequestFits(p, s, i);
    }
    if s.requests != [] {
      SlotAtLeastIndex(p, s, |s.requests| - 1);
      assert OnTime(p, s, s.requests[|s.requests| - 1]);
    }
  }

  /**
   One search makes at most 21 requests, in strictly increasing slots, each exactly at its slot's time
   (so none before T - 5 s or after T + 5 s), and none when it starts after T + 5 s; the count it
   reports is the number of requests it made.
   */
  lemma SlotDiscipline(p: Plan, states: seq<Search>, steps: seq<Step>, n: nat)
    requires SearchRun(p, states, steps) && n < |states|
    ensures var s := states[n];
            && |s.requests| <= 21
            && (forall i, j :: 0 <= i < j < |s.requests| ==> s.requests[i].slot < s.requests[j].slot)
            && (forall i :: 0 <= i < |s.requests| ==> OnTime(p, s, s.requests[i]))
            && (s.startedUs > p.startUs + AFTER ==> s.requests == [])
            && (s.pc.Done? ==> s.result.Some? && s.result.value.attempts == |s.requests|)
  {
    RunInv(p, states, steps, n);
    var s := states[n];
    AllOnTime(p, s);
    forall i, j | 0 <= i < j < |s.requests| ensures s.requests[i].slot < s.requests[j].slot {
      SlotsIncrease(p, s, i, j);
    }
    if s.requests != [] {
      assert OnTime(p, s, s.requests[0]);
    }
  }

  /** Requests of one search never overlap: each starts after the answer to the one before it. */
  lemma NoOverlap(p: Plan, states: seq<Search>, steps: seq<Step>, n: nat, i: nat)
    requires SearchRun(p, states, steps) && n < |states| && i + 1 < |states[n].requests|
    ensures i < |states[n].answered|
    ensures states[n].requests[i].startedUs <= states[n].answered[i] <= states[n].requests[i + 1].startedUs
  {
    RunInv(p, states, steps, n);
    assert RequestFits(p, states[n], i) && RequestFits(p, states[n], i + 1);
  }

  // What a search was told, and what it makes of it.

  /** The last answer, with the time it came. */
  datatype Heard = Nothing | Heard(answer: Answer, atUs: int)

  function LastHeard(states: seq<Search>, steps: seq<Step>, n: nat): Heard
    requires n <= |steps| <= |states|
  {
    if n == 0 then Nothing
    else if steps[n - 1].Answered? then Heard(steps[n - 1].answer, states[n - 1].now)
    else LastHeard(states, steps, n - 1)
  }

  /** The text of a miss: its own, or "market_not_found" when it has none. */
  predicate ErrorIs(heard: Heard, text: string) {
    match heard
    case Nothing => text == "market_not_found"
    case Heard(Found(_), _) => false
    case Heard(Missing(None), _) => text == "market_not_found"
    case Heard(Missing(Some(error)), _) => text == if error == "" then "market_not_found" else error
  }

  /** No delay up to the transition, then the whole milliseconds past it. */
  predicate DelayIs(startUs: int, atUs: int, delayMs: int) {
    if atUs <= startUs then delayMs == 0 else 0 <= atUs - startUs - delayMs * 1000 < 1000
  }

  predicate AnsweredLast(s: Search, atUs: int) {
    s.answered != [] && s.answered[|s.answered| - 1] == atUs
  }

  /** Nothing heard, or misses only, the last of them remembered. */
  predicate OnlyMisses(s: Search, heard: Heard) {
    if heard.Nothing? then s.answered == [] && s.lastError.None?
    else AnsweredLast(s, heard.atUs) && heard.answer.Missing? && s.lastError.Some? && ErrorIs(heard, s.lastError.value)
  }

  /** The market was the last answer, at that time. */
  predicate HeardOf(s: Search, heard: Heard, market: Market, atUs: int) {
    heard == Heard(Found(market), atUs) && AnsweredLast(s, atUs)
  }

  predicate Reports(p: Plan, s: Search, heard: Heard, r: TransitionResult) {
    if r.success then
      && r.newMarket.Some? && r.resolvedUs.Some? && r.delayMs.Some?
      && HeardOf(s, heard, r.newMarket.value, r.resolvedUs.value)
      && DelayIs(p.startUs, r.resolvedUs.value, r.delayMs.value)
    else r.lastError.Some? && ErrorIs(heard, r.lastError.value)
  }

  /** What holds of a search that has heard `heard`. */
  predicate Knows(p: Plan, s: Search, heard: Heard) {
    match s.pc
    case WaitStart => OnlyMisses(s, heard) && heard.Nothing?
    case WaitSlot => OnlyMisses(s, heard)
    case InRequest => OnlyMisses(s, heard)
    case WaitReady(market, at) => HeardOf(s, heard, market, at) && at < p.startUs
    case Done => s.result.Some? && Reports(p, s, heard, s.result.value)
  }

  lemma HideKnows(p: Plan, s: Search, heard: Heard)
    requires OnlyMisses(s, heard)
    ensures OnlyMisses(HideWhenDue(p, s), heard)
  {
  }

  lemma FailKnows(p: Plan, s: Search, heard: Heard)
    requires OnlyMisses(s, heard)
    ensures Knows(p, Fail(p, s), heard)
  {
  }

  lemma NextSlotKnows(p: Plan, s: Search, from: nat, heard: Heard)
    requires OnlyMisses(s, heard)
    ensures Knows(p, NextSlot(p, s, from), heard)
  {
    FailKnows(p, s.(slot := SkipPassed(p, from, s.now)), heard);
  }

  lemma MissKnows(p: Plan, s: Search, error: Option<string>)
    ensures OnlyMisses(Counted(s, Some(OrNotFound(error))), Heard(Missing(error), s.now))
  {
  }

  lemma MarketKnows(p: Plan, s: Search, market: Market)
    ensures Knows(p, TakeMarket(p, s, market), Heard(Found(market), s.now))
  {
  }

  lemma AnswerKnows(p: Plan, s: Search, answer: Answer)
    ensures Knows(p, TakeAnswer(p, s, answer), Heard(answer, s.now))
  {
    if answer.Found? {
      MarketKnows(p, s, answer.market);
    } else {
      var missed := Counted(s, Some(OrNotFound(answer.error)));
      MissKnows(p, s, answer.error);
      HideKnows(p, missed, Heard(answer, s.now));
      NextSlotKnows(p, HideWhenDue(p, missed), s.slot + 1, Heard(answer, s.now));
    }
  }

  lemma OtherKnows(p: Plan, s: Search, step: Step, heard: Heard)
    requires Knows(p, s, heard) && Enabled(p, s, step) && !step.Answered?
    ensures Knows(p, Do(p, s, step), heard)
  {
    match step {
      case Begin => NextSlotKnows(p, Begun(p, s), 0, heard);
      case SlotDue => HideKnows(p, s, heard);
      case _ =>
    }
  }

  lemma {:induction false} RunKnows(p: Plan, states: seq<Search>, steps: seq<Step>, n: nat)
    requires SearchRun(p, states, steps) && n <= |steps|
    ensures Knows(p, states[n], LastHeard(states, steps, n))
  {
    if n > 0 {
      var s, step := states[n - 1], steps[n - 1];
      assert Goes(p, s, step, states[n]);
      RunKnows(p, states, steps, n - 1);
      if step.Answered? {
        AnswerKnows(p, s, step.answer);
      } else {
        OtherKnows(p, s, step, LastHeard(states, steps, n - 1));
      }
    }
  }

  /**
   What a search that has returned reports is its last answer. A success reports the very market of that answer,
   resolved at the time it came, with no delay up to the transition and then the whole milliseconds past it. A
   failure reports the error of its last miss, or "market_not_found" when that has none or there was no answer.
   */
  lemma {:induction false} ReportsLastAnswer(p: Plan, states: seq<Search>, steps: seq<Step>, n: nat)
    requires SearchRun(p, states, steps) && n <= |steps| && states[n].pc.Done?
    ensures states[n].result.Some? && Reports(p, states[n], LastHeard(states, steps, n), states[n].result.value)
  {
    RunKnows(p, states, steps, n);
  }

  // What a publication carries.

  /** Every publication added carries the time, the transition, the number of answers so far and the last error. */
  ghost predicate Adds(p: Plan, before: seq<Published>, t: Search, now: int) {
    && before <= t.emitted
    && (forall k :: |before| <= k < |t.emitted| ==>
          && t.emitted[k].atUs == now && t.emitted[k].expectedUs == p.startUs
          && t.emitted[k].attempts == t.attempts && t.emitted[k].lastError == t.lastError)
  }

  lemma EmitAdds(p: Plan, before: seq<Published>, s: Search, state: DiscoveryState,
                 current: Option<Market>, next: Option<Market>)
    requires Adds(p, before, s, s.now)
    ensures Adds(p, before, Emit(p, s, state, current, next), s.now)
  {
  }

  lemma FailAdds(p: Plan, before: seq<Published>, s: Search)
    requires Adds(p, before, s, s.now)
    ensures Adds(p, before, Fail(p, s), s.now)
  {
    EmitAdds(p, before, s, TRANSITION_FAILED, None, None);
  }

  lemma NextSlotAdds(p: Plan, before: seq<Published>, s: Search, from: nat)
    requires Adds(p, before, s, s.now)
    ensures Adds(p, before, NextSlot(p, s, from), s.now)
  {
    FailAdds(p, before, s.(slot := SkipPassed(p, from, s.now)));
  }

  lemma HideAdds(p: Plan, before: seq<Published>, s: Search)
    requires Adds(p, before, s, s.now)
    ensures Adds(p, before, HideWhenDue(p, s), s.now)
  {
  }

  lemma MissAdds(p: Plan, s: Search, error: Option<string>)
    ensures Adds(p, s.emitted, TakeMiss(p, s, error), s.now)
  {
    var missed := Counted(s, Some(OrNotFound(error)));
    HideAdds(p, s.emitted, missed);
    HideRequests(p, missed);
    NextSlotAdds(p, s.emitted, HideWhenDue(p, missed), s.slot + 1);
  }

  lemma MarketAdds(p: Plan, s: Search, market: Market)
    ensures Adds(p, s.emitted, TakeMarket(p, s, market), s.now)
  {
    var found := Counted(s, None);
    if s.now < p.startUs {
      EmitAdds(p, s.emitted, found.(nextReady := true, pc := WaitReady(market, s.now)),
               NEXT_READY, LivePrevious(p.previous, s.now), Some(market));
    } else {
      EmitAdds(p, s.emitted, found, ACTIVE, Some(market), None);
    }
  }

  /**
   Every publication of a step carries the time of that step, the transition the search is for, how many answers
   had come, and the error of the last of them.
   */
  lemma StepPublishes(p: Plan, s: Search, step: Step)
    requires Enabled(p, s, step)
    ensures Adds(p, s.emitted, Do(p, s, step), s.now)
  {
    match step {
      case Begin => NextSlotAdds(p, s.emitted, Begun(p, s), 0);
      case Answered(answer) =>
        if answer.Found? {
          MarketAdds(p, s, answer.market);
        } else {
          MissAdds(p, s, answer.error);
        }
      case SlotDue => HideAdds(p, s.emitted, s);
      case _ =>
    }
  }

  // No slot is passed over early.

  /** The time from which the search last looked for a slot. */
  function Since(s: Search): int {
    if s.answered == [] then s.startedUs else s.answered[|s.answered| - 1]
  }

  /** The first slot it then considered. */
  function FirstOpen(s: Search): nat {
    if s.requests == [] then 0 else s.requests[|s.requests| - 1].slot + 1
  }

  /** The times of slots `from` up to `to` have passed. */
  ghost predicate Passed(p: Plan, from: nat, to: nat, time: int) {
    forall k :: from <= k < to ==> p.SlotTime(k) < time
  }

  /** Between requests `i - 1` and `i` only slots were left out that had passed when the answer came. */
  ghost predicate InTurn(p: Plan, s: Search, i: nat) {
    && i < |s.requests| && i <= |s.answered|
    && (if i == 0 then Passed(p, 0, s.requests[0].slot, s.startedUs)
        else Passed(p, s.requests[i - 1].slot + 1, s.requests[i].slot, s.answered[i - 1]))
  }

  ghost predicate AllInTurn(p: Plan, s: Search) {
    && |s.answered| <= |s.requests| <= |s.answered| + 1
    && (s.pc.WaitSlot? ==> |s.requests| == |s.answered| && Passed(p, FirstOpen(s), s.slot, Since(s)))
    && (s.pc.WaitStart? ==> s.requests == [])
    && (s.pc.InRequest? ==> |s.requests| == |s.answered| + 1 && s.requests[|s.requests| - 1].slot == s.slot)
    && (forall i: nat :: i < |s.requests| ==> InTurn(p, s, i))
    && (s.pc.Done? && s.result.Some? && !s.result.value.success ==>
          Passed(p, FirstOpen(s), LAST_SLOT + 1, Since(s)))
  }

  lemma SameTurns(p: Plan, s: Search, t: Search)
    requires SameRequests(s, t) && (forall i: nat :: i < |s.requests| ==> InTurn(p, s, i))
    ensures forall i: nat :: i < |t.requests| ==> InTurn(p, t, i)
  {
    forall i: nat | i < |t.requests| ensures InTurn(p, t, i) {
      assert InTurn(p, s, i);
    }
  }

  lemma NextSlotInTurn(p: Plan, s: Search, from: nat)
    requires |s.requests| == |s.answered| && from == FirstOpen(s) <= LAST_SLOT + 1 && s.now == Since(s)
    requires forall i: nat :: i < |s.requests| ==> InTurn(p, s, i)
    ensures AllInTurn(p, NextSlot(p, s, from))
  {
    NextSlotRequests(p, s, from);
    SameTurns(p, s, NextSlot(p, s, from));
  }

  lemma BeginInTurn(p: Plan, s: Search)
    requires AllInTurn(p, s) && s.pc.WaitStart?
    ensures AllInTurn(p, BeginSearch(p, s))
  {
    NextSlotInTurn(p, Begun(p, s), 0);
  }

  lemma StartInTurn(p: Plan, s: Search)
    requires AllInTurn(p, s) && s.pc.WaitSlot?
    ensures AllInTurn(p, StartRequest(p, s))
  {
    HideRequests(p, s);
    var t := StartRequest(p, s);
    forall i: nat | i < |t.requests| ensures InTurn(p, t, i) {
      if i < |s.requests| {
        assert InTurn(p, s, i);
      }
    }
  }

  lemma CountedInTurn(p: Plan, s: Search, error: Option<string>)
    requires AllInTurn(p, s) && s.pc.InRequest?
    ensures var t := Counted(s, error);
            && |t.requests| == |t.answered| && Since(t) == t.now && FirstOpen(t) == s.slot + 1
            && forall i: nat :: i < |t.requests| ==> InTurn(p, t, i)
  {
    var t := Counted(s, error);
    forall i: nat | i < |t.requests| ensures InTurn(p, t, i) {
      assert InTurn(p, s, i);
    }
  }

  lemma MissInTurn(p: Plan, s: Search, error: Option<string>)
    requires AllInTurn(p, s) && s.pc.InRequest? && s.slot <= LAST_SLOT
    ensures AllInTurn(p, TakeMiss(p, s, error))
  {
    var missed := Counted(s, Some(OrNotFound(error)));
    CountedInTurn(p, s, Some(OrNotFound(error)));
    HideRequests(p, missed);
    SameTurns(p, missed, HideWhenDue(p, missed));
    NextSlotInTurn(p, HideWhenDue(p, missed), s.slot + 1);
  }

  lemma MarketInTurn(p: Plan, s: Search, market: Market)
    requires AllInTurn(p, s) && s.pc.InRequest?
    ensures AllInTurn(p, TakeMarket(p, s, market))
  {
    CountedInTurn(p, s, None);
    MarketBookkeeping(p, s, market);
    SameTurns(p, Counted(s, None), TakeMarket(p, s, market));
  }

  lemma OtherInTurn(p: Plan, s: Search, step: Step)
    requires AllInTurn(p, s) && Enabled(p, s, step) && (step.Advance? || step.ReadyDue? || step.ExpiryDue?)
    ensures AllInTurn(p, Do(p, s, step))
  {
    SameTurns(p, s, Do(p, s, step));
  }

  lemma {:induction false} RunInTurn(p: Plan, states: seq<Search>, steps: seq<Step>, n: nat)
    requires SearchRun(p, states, steps) && n < |states|
    ensures AllInTurn(p, states[n])
  {
    if n > 0 {
      var s, step := states[n - 1], steps[n - 1];
      assert Goes(p, s, step, states[n]);
      RunInTurn(p, states, steps, n - 1);
      RunInv(p, states, steps, n - 1);
      match step {
        case Begin => BeginInTurn(p, s);
        case SlotDue => StartInTurn(p, s);
        case Answered(answer) =>
          if answer.Found? {
            MarketInTurn(p, s, answer.market);
          } else {
            MissInTurn(p, s, answer.error);
          }
        case _ => OtherInTurn(p, s, step);
      }
    }
  }

  /**
   No slot is passed over early: between two requests, before the first, and after the last of a search that gave
   up, only slots were left out whose time had passed when the search looked for the next one.
   */
  lemma NoSlotLeftOut(p: Plan, states: seq<Search>, steps: seq<Step>, n: nat)
    requires SearchRun(p, states, steps) && n < |states|
    ensures var s := states[n];
            && (forall i: nat :: i < |s.requests| ==> InTurn(p, s, i))
            && (s.pc.Done? && s.result.Some? && !s.result.value.success ==>
                  Passed(p, FirstOpen(s), LAST_SLOT + 1, Since(s)))
  {
    RunInTurn(p, states, steps, n);
  }

  // Progress.

  /** A search that has not returned can always go on: some step other than waiting for nothing is possible. */
  lemma NeverStuck(p: Plan, states: seq<Search>, steps: seq<Step>, i: nat) returns (step: Step)
    requires SearchRun(p, states, steps) && i < |states| && !states[i].pc.Done?
    ensures Enabled(p, states[i], step)
  {
    RunInv(p, states, steps, i);
    var s := states[i];
    if s.expiry && s.now >= p.startUs {
      step := ExpiryDue;
    } else if s.pc.InRequest? {
      step := Answered(Missing(None));
    } else if s.now < SearchTimer(p, s).value {
      var to := SearchTimer(p, s).value;
      step := Advance(if s.expiry && p.startUs < to then p.startUs else to);
    } else {
      step := if s.pc.WaitStart? then Begin else if s.pc.WaitSlot? then SlotDue else ReadyDue;
    }
  }

  /** How many more steps, not counting the passing of time, a search can make. */
  function StepsLeft(s: Search): int {
    (match s.pc
     case WaitStart => 50
     case WaitSlot => 2 * (LAST_SLOT + 1 - s.slot) + 2
     case InRequest => 2 * (LAST_SLOT + 1 - s.slot) + 1
     case WaitReady(_, _) => 1
     case Done => 0)
    + if s.expiry then 1 else 0
  }

  lemma NextSlotLeft(p: Plan, s: Search, from: nat)
    requires from <= LAST_SLOT + 1
    ensures 0 <= StepsLeft(NextSlot(p, s, from)) <= 2 * (LAST_SLOT + 1 - from) + 2 + if s.expiry then 1 else 0
  {
  }

  lemma BeginLeft(p: Plan, s: Search)
    requires s.pc.WaitStart? && !s.expiry
    ensures 0 <= StepsLeft(BeginSearch(p, s)) < StepsLeft(s)
  {
    NextSlotLeft(p, Begun(p, s), 0);
  }

  lemma MissLeft(p: Plan, s: Search, error: Option<string>)
    requires s.pc.InRequest? && s.slot <= LAST_SLOT
    ensures 0 <= StepsLeft(TakeMiss(p, s, error)) < StepsLeft(s)
  {
    GoOnLeft(p, Counted(s, Some(OrNotFound(error))), s.slot + 1);
  }

  lemma GoOnLeft(p: Plan, s: Search, from: nat)
    requires from <= LAST_SLOT + 1
    ensures 0 <= StepsLeft(GoOn(p, s, from)) <= 2 * (LAST_SLOT + 1 - from) + 2 + if s.expiry then 1 else 0
  {
    assert HideWhenDue(p, s).expiry == s.expiry;
    NextSlotLeft(p, HideWhenDue(p, s), from);
  }

  lemma MarketLeft(p: Plan, s: Search, market: Market)
    requires s.pc.InRequest? && s.slot <= LAST_SLOT
    ensures 0 <= StepsLeft(TakeMarket(p, s, market)) < StepsLeft(s)
  {
  }

  lemma DueLeft(p: Plan, s: Search, step: Step)
    requires Enabled(p, s, step) && (step.SlotDue? || step.ReadyDue? || step.ExpiryDue?)
    requires s.pc.WaitSlot? || s.pc.InRequest? ==> s.slot <= LAST_SLOT
    ensures 0 <= StepsLeft(Do(p, s, step)) < StepsLeft(s)
  {
  }

  /** Every step but the passing of time brings the search closer to its return, so no search goes on for ever. */
  lemma StepsRunOut(p: Plan, s: Search, step: Step)
    requires Inv(p, s) && Enabled(p, s, step) && !step.Advance?
    ensures 0 <= StepsLeft(Do(p, s, step)) < StepsLeft(s)
  {
    match step {
      case Begin => BeginLeft(p, s);
      case Answered(answer) =>
        if answer.Found? {
          MarketLeft(p, s, answer.market);
        } else {
          MissLeft(p, s, answer.error);
        }
      case _ => DueLeft(p, s, step);
    }
  }
}
