/** The worker of one timeframe: startup, then one transition search after another (transition.py:229-275). */
module Worker {
  import opened Wrappers
  import opened Models
  import opened Discovery
  import opened Resolver
  import opened Transition

  const STARTUP_ATTEMPTS := 3
  const EXPIRED_AT_STARTUP := "market_expired_during_startup"

  /** One startup attempt: the time it asks for, the answer, and the time the answer is looked at. */
  datatype Attempt = Attempt(nowUs: int, answer: Answer, seenUs: int)

  /** The answer is for the window that contains the time of the attempt. */
  predicate AsksCurrent(tf: Timeframe, a: Attempt) {
    Resolves(a.answer, tf, FloorToWindow(a.nowUs, tf))
  }

  predicate FindsLive(a: Attempt) {
    a.answer.Found? && a.answer.market.endUs > a.seenUs
  }

  /** What an attempt that is not usable leaves behind. */
  function LeftBy(a: Attempt): Answer {
    if a.answer.Found? then Missing(Some(EXPIRED_AT_STARTUP)) else a.answer
  }

  /** The first usable answer, or what the third attempt left; and how many attempts it took. */
  method ResolveStartupMarket(tf: Timeframe, attempts: seq<Attempt>) returns (answer: Answer, used: nat)
    requires |attempts| == STARTUP_ATTEMPTS
    ensures 1 <= used <= STARTUP_ATTEMPTS
    ensures forall i :: 0 <= i < used - 1 ==> !FindsLive(attempts[i])
    ensures answer == if FindsLive(attempts[used - 1]) then attempts[used - 1].answer else LeftBy(attempts[used - 1])
    ensures answer.Found? <==> FindsLive(attempts[used - 1])
    ensures answer.Missing? ==> used == STARTUP_ATTEMPTS
  {
    var left := Missing(None);
    for i := 0 to STARTUP_ATTEMPTS
      invariant forall j :: 0 <= j < i ==> !FindsLive(attempts[j])
      invariant i > 0 ==> left == LeftBy(attempts[i - 1])
    {
      var attempt := attempts[i];
      if attempt.answer.Found? {
        if attempt.answer.market.endUs > attempt.seenUs {
          return attempt.answer, i + 1;
        }
        left := Missing(Some(EXPIRED_AT_STARTUP));
      } else {
        left := attempt.answer;
      }
    }
    answer, used := left, STARTUP_ATTEMPTS;
  }

  // The worker.

  /** `expected` is the boundary of the next search; `logged` the results appended to the transition log. */
  datatype WorkerState = WorkerState(current: Option<Market>, expectedUs: int, logged: seq<TransitionResult>)

  function Started(tf: Timeframe, answer: Answer, nowUs: int): WorkerState {
    match answer
    case Found(market) => WorkerState(Some(market), market.endUs, [])
    case Missing(_) => WorkerState(None, FloorToWindow(nowUs, tf) + DurationUs(tf), [])
  }

  function NextPlan(tf: Timeframe, w: WorkerState): Plan {
    Plan(tf, w.current, w.expectedUs)
  }

  function AfterSearch(tf: Timeframe, w: WorkerState, r: TransitionResult): WorkerState {
    WorkerState(if r.success then r.newMarket else None, w.expectedUs + DurationUs(tf), w.logged + [r])
  }

  class DiscoveryWorker {
    const timeframe: Timeframe
    var current: Option<Market>
    var expectedUs: int
    var logged: seq<TransitionResult>
    var published: seq<Published>

    ghost function View(): WorkerState
      reads this
    {
      WorkerState(current, expectedUs, logged)
    }

    /** Startup: take the answer over, choose the first boundary, publish what is known. */
    constructor (timeframe: Timeframe, answer: Answer, attempts: nat, nowUs: int)
      ensures this.timeframe == timeframe && View() == Started(timeframe, answer, nowUs)
      ensures |published| == 1
      ensures published[0].current == current && published[0].next.None? && published[0].expectedUs == expectedUs
      ensures published[0].state == (if current.Some? then ACTIVE else TRANSITION_FAILED)
      ensures published[0].atUs == nowUs && published[0].attempts == attempts
      ensures published[0].lastError == if answer.Missing? then Some(OrNotFound(answer.error)) else None
    {
      this.timeframe, logged := timeframe, [];
      var market := if answer.Found? then Some(answer.market) else None;
      var expected :=
        if answer.Found? then answer.market.endUs else FloorToWindow(nowUs, timeframe) + DurationUs(timeframe);
      current, expectedUs := market, expected;
      published := [Published(nowUs, if market.Some? then ACTIVE else TRANSITION_FAILED, market, None, expected,
                              attempts, if answer.Found? then None else Some(OrNotFound(answer.error)))];
    }

    /** The rest of one pass of the worker's loop, once its search has returned. */
    method TakeResult(r: TransitionResult)
      modifies this`current, this`expectedUs, this`logged
      ensures View() == AfterSearch(timeframe, old(View()), r)
    {
      logged := logged + [r];
      current := if r.success then r.newMarket else None;
      expectedUs := expectedUs + DurationUs(timeframe);
    }
  }

  /** Some run of the search returns this result. */
  ghost predicate Returns(p: Plan, r: TransitionResult) {
    exists states: seq<Search>, steps: seq<Step> :: ReturnsIn(p, states, steps, r)
  }

  ghost predicate ReturnsIn(p: Plan, states: seq<Search>, steps: seq<Step>, r: TransitionResult) {
    SearchRun(p, states, steps) && states[|steps|].pc.Done? && states[|steps|].result == Some(r)
  }

  lemma ReturnedFacts(p: Plan, r: TransitionResult)
    requires Returns(p, r)
    ensures r.Valid() && r.previous == p.previous && r.expectedUs == p.startUs && r.attempts <= 21
    ensures r.success ==> r.newMarket.Some? && r.newMarket.value.endUs == p.startUs + DurationUs(p.timeframe)
  {
    var states: seq<Search>, steps: seq<Step> :| ReturnsIn(p, states, steps, r);
    RunInv(p, states, steps, |steps|);
    SlotDiscipline(p, states, steps, |steps|);
  }

  function WorkerRun(tf: Timeframe, w: WorkerState, results: seq<TransitionResult>): WorkerState {
    if results == [] then w
    else AfterSearch(tf, WorkerRun(tf, w, results[..|results| - 1]), results[|results| - 1])
  }

  /** Each result is one that the search for its boundary can return. */
  ghost predicate PossibleRun(tf: Timeframe, w: WorkerState, results: seq<TransitionResult>) {
    results == [] ||
    (var front := results[..|results| - 1];
     PossibleRun(tf, w, front) && Returns(NextPlan(tf, WorkerRun(tf, w, front)), results[|results| - 1]))
  }

  predicate OnBoundary(tf: Timeframe, w: WorkerState) {
    && w.expectedUs % DurationUs(tf) == 0
    && (w.current.Some? ==> w.current.value.endUs == w.expectedUs)
  }

  /**
   The first boundary is a multiple of the length: the end of the market that startup found, or, when it found none,
   the next boundary after now.
   */
  lemma StartedOnBoundary(tf: Timeframe, a: Attempt, answer: Answer, nowUs: int)
    requires AsksCurrent(tf, a) && (answer.Found? ==> answer == a.answer)
    ensures OnBoundary(tf, Started(tf, answer, nowUs)) && Started(tf, answer, nowUs).logged == []
    ensures Started(tf, answer, nowUs).current == if answer.Found? then Some(answer.market) else None
    ensures answer.Missing? && nowUs >= 0 ==>
              nowUs < Started(tf, answer, nowUs).expectedUs <= nowUs + DurationUs(tf)
  {
    WindowContains(a.nowUs, tf);
    WindowContains(nowUs, tf);
    NextMultiple(FloorToWindow(a.nowUs, tf), tf);
    NextMultiple(FloorToWindow(nowUs, tf), tf);
  }

  lemma NextMultiple(us: int, tf: Timeframe)
    requires us % DurationUs(tf) == 0
    ensures (us + DurationUs(tf)) % DurationUs(tf) == 0
  {
  }

  lemma OneMoreSearch(tf: Timeframe, w: WorkerState, r: TransitionResult)
    requires OnBoundary(tf, w) && Returns(NextPlan(tf, w), r)
    ensures OnBoundary(tf, AfterSearch(tf, w, r))
    ensures r.Valid() && r.expectedUs == w.expectedUs && r.previous == w.current
  {
    ReturnedFacts(NextPlan(tf, w), r);
    NextMultiple(w.expectedUs, tf);
  }

  /** The boundary `n` window lengths after `from`. */
  function Boundary(from: int, tf: Timeframe, n: nat): int {
    from + (if tf == FIVE_MINUTES then 300_000_000 * n else 900_000_000 * n)
  }

  /** Result `i` of the run is valid and for the `i`th boundary from the start. */
  ghost predicate LoggedInOrder(tf: Timeframe, from: int, results: seq<TransitionResult>) {
    forall i :: 0 <= i < |results| ==> results[i].Valid() && results[i].expectedUs == Boundary(from, tf, i)
  }

  /** The market of the last result, none after a failure; before the first result the market of the start. */
  function FoundLast(w: WorkerState, results: seq<TransitionResult>): Option<Market> {
    if results == [] then w.current else results[|results| - 1].newMarket
  }

  /** Where a worker that started in `w` stands after `results`. */
  ghost predicate Progressed(tf: Timeframe, w: WorkerState, now: WorkerState, results: seq<TransitionResult>) {
    && OnBoundary(tf, now) && now.logged == results
    && now.current == FoundLast(w, results)
    && (forall i :: 0 <= i < |results| ==> results[i].previous == FoundLast(w, results[..i]))
    && now.expectedUs == Boundary(w.expectedUs, tf, |results|)
    && LoggedInOrder(tf, w.expectedUs, results)
  }

  lemma SearchProgresses(tf: Timeframe, w: WorkerState, now: WorkerState, results: seq<TransitionResult>,
                         r: TransitionResult)
    requires Progressed(tf, w, now, results) && Returns(NextPlan(tf, now), r)
    ensures Progressed(tf, w, AfterSearch(tf, now, r), results + [r])
  {
    OneMoreSearch(tf, now, r);
    LoggedSnoc(tf, w.expectedUs, results, r);
  }

  /**
   From a start on a window boundary, over any number of searches: every search has had exactly one
   result logged, for its own boundary, each boundary one length after the one before; the boundary is
   a multiple of the length; the current market is none or ends exactly at it; every result is valid.
   */
  lemma {:induction false} WorkerProgression(tf: Timeframe, w: WorkerState, results: seq<TransitionResult>)
    requires OnBoundary(tf, w) && w.logged == [] && PossibleRun(tf, w, results)
    ensures Progressed(tf, w, WorkerRun(tf, w, results), results)
  {
    if results != [] {
      var front, last := results[..|results| - 1], results[|results| - 1];
      WorkerProgression(tf, w, front);
      SearchProgresses(tf, w, WorkerRun(tf, w, front), front, last);
      assert front + [last] == results;
    }
  }

  lemma LoggedSnoc(tf: Timeframe, from: int, results: seq<TransitionResult>, last: TransitionResult)
    requires LoggedInOrder(tf, from, results) && last.Valid() && last.expectedUs == Boundary(from, tf, |results|)
    ensures LoggedInOrder(tf, from, results + [last])
    ensures Boundary(from, tf, |results + [last]|) == Boundary(from, tf, |results|) + DurationUs(tf)
  {
  }

  /**
   So in every search of a worker what follows a market is what starts when it ends: after its boundary the
   latest publication shows an expired market only in the instant of entering a search too late, before the
   search publishes anything itself.
   */
  lemma {:induction false} WorkerShowsNoExpired(
      tf: Timeframe, w: WorkerState, results: seq<TransitionResult>, earlier: Option<Published>,
      states: seq<Search>, steps: seq<Step>, i: nat)
    requires OnBoundary(tf, w) && w.logged == [] && PossibleRun(tf, w, results)
    requires SearchRun(NextPlan(tf, WorkerRun(tf, w, results)), states, steps) && i < |states|
    requires states[i].now > WorkerRun(tf, w, results).expectedUs
    ensures var current := WorkerRun(tf, w, results).current;
            Shows(Latest(earlier, states[i]), current) <==> states[i].pc.WaitStart? && Shows(earlier, current)
    ensures WorkerRun(tf, w, results).current.Some? && states[i].pc.WaitStart? ==> states[i].now == states[0].now
  {
    WorkerProgression(tf, w, results);
    if WorkerRun(tf, w, results).current.Some? {
      NoExpiredMarket(NextPlan(tf, WorkerRun(tf, w, results)), earlier, states, steps, i);
    }
  }
}
