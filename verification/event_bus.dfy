/**
 The bounded fan-out of canonical events (market_data/event_bus.py) as steps between awaits: publishers
 take turns under a lock, one consumer empties each of the two queues.
 */
module EventBus {
  import opened Wrappers
  import opened Models

  /** A queue with a maximum size of zero or less is unbounded. */
  datatype Queue = Queue(capacity: int, items: seq<Event>)
  {
    predicate Full() { capacity > 0 && |items| >= capacity }
  }

  /**
   `waiting` is the numbered event of the publisher that holds the lock and sleeps; `lost` are the
   numbers of publishers that gave up; `next` is what the number allocator gives next.
   */
  datatype Bus = Bus(
    state: Queue, storage: Queue, stateTaken: seq<Event>, storageTaken: seq<Event>,
    waiting: Option<Event>, next: int, lost: seq<int>, published: seq<Event>,
    highState: nat, highStorage: nat, closed: bool)

  function NewBus(stateCapacity: int, storageCapacity: int, first: int): Bus {
    Bus(Queue(stateCapacity, []), Queue(storageCapacity, []), [], [], None, first, [], [], 0, 0, false)
  }

  function Max(a: nat, b: nat): nat { if a < b then b else a }

  predicate Blocked(b: Bus) { b.state.Full() || b.storage.Full() }

  /** Both `put_nowait` calls, in one go: they fail on a full queue, and are never made on one. */
  function PutBoth(b: Bus, e: Event): Bus
    requires !b.state.Full() && !b.storage.Full()
  {
    b.(state := b.state.(items := b.state.items + [e]), storage := b.storage.(items := b.storage.items + [e]),
       published := b.published + [e], waiting := None,
       highState := Max(b.highState, |b.state.items| + 1), highStorage := Max(b.highStorage, |b.storage.items| + 1))
  }

  function PutOrWait(b: Bus, e: Event): Bus {
    if Blocked(b) then b.(waiting := Some(e)) else PutBoth(b, e)
  }

  function BeginPublish(b: Bus, e: Event): Bus {
    PutOrWait(b.(next := b.next + 1), e.(number := b.next))
  }

  /** The publisher stops: its deadline passed with a queue still full, or it was cancelled. */
  function GiveUp(b: Bus): Bus
    requires b.waiting.Some?
  {
    b.(waiting := None, lost := b.lost + [b.waiting.value.number])
  }

  datatype Step = Begin(e: Event) | Retry | TimeOut | Cancel | TakeState | TakeStorage | Close

  /** A publisher may begin even after closing, if it was already waiting for the lock then. */
  predicate Enabled(b: Bus, step: Step) {
    match step
    case Begin(_) => b.waiting.None?
    case Retry => b.waiting.Some?
    case TimeOut => b.waiting.Some? && Blocked(b)
    case Cancel => b.waiting.Some?
    case TakeState => b.state.items != []
    case TakeStorage => b.storage.items != []
    case Close => true
  }

  function Do(b: Bus, step: Step): Bus
    requires Enabled(b, step)
  {
    match step
    case Begin(e) => BeginPublish(b, e)
    case Retry => PutOrWait(b, b.waiting.value)
    case TimeOut => GiveUp(b)
    case Cancel => GiveUp(b)
    case TakeState =>
      b.(stateTaken := b.stateTaken + [b.state.items[0]], state := b.state.(items := b.state.items[1..]))
    case TakeStorage =>
      b.(storageTaken := b.storageTaken + [b.storage.items[0]], storage := b.storage.(items := b.storage.items[1..]))
    case Close => b.(closed := true)
  }

  /** The bus after the steps; a step that is not enabled at its turn ends the run. */
  function Run(b: Bus, steps: seq<Step>): Option<Bus> {
    if steps == [] then Some(b)
    else
      var before :- Run(b, steps[..|steps| - 1]);
      if Enabled(before, steps[|steps| - 1]) then Some(Do(before, steps[|steps| - 1])) else None
  }

  class PublishingBus {
    const stateCapacity: int
    const storageCapacity: int
    var stateQueue: seq<Event>
    var storageQueue: seq<Event>
    var highState: nat
    var highStorage: nat
    var closed: bool
    var waiting: Option<Event>
    var nextNumber: int
    ghost var stateTaken: seq<Event>
    ghost var storageTaken: seq<Event>
    ghost var published: seq<Event>
    ghost var lost: seq<int>

    ghost function View(): Bus
      reads this
    {
      Bus(Queue(stateCapacity, stateQueue), Queue(storageCapacity, storageQueue), stateTaken, storageTaken,
          waiting, nextNumber, lost, published, highState, highStorage, closed)
    }

    constructor (stateCapacity: int, storageCapacity: int, first: int)
      ensures View() == NewBus(stateCapacity, storageCapacity, first)
    {
      this.stateCapacity, this.storageCapacity, nextNumber := stateCapacity, storageCapacity, first;
      stateQueue, storageQueue, highState, highStorage, closed, waiting := [], [], 0, 0, false, None;
      stateTaken, storageTaken, published, lost := [], [], [], [];
    }

    method IsBlocked() returns (blocked: bool)
      ensures blocked == Blocked(View())
    {
      blocked := (stateCapacity > 0 && |stateQueue| >= stateCapacity)
                 || (storageCapacity > 0 && |storageQueue| >= storageCapacity);
    }

    /** One pass of the waiting loop, with the puts that follow it. */
    method TryPut(e: Event) returns (done: bool)
      modifies this
      ensures View() == PutOrWait(old(View()), e)
      ensures done <==> !Blocked(old(View()))
    {
      var blocked := IsBlocked();
      if blocked {
        waiting := Some(e);
        return false;
      }
      stateQueue := stateQueue + [e];
      storageQueue := storageQueue + [e];
      published := published + [e];
      if highState < |stateQueue| {
        highState := |stateQueue|;
      }
      if highStorage < |storageQueue| {
        highStorage := |storageQueue|;
      }
      waiting := None;
      done := true;
    }

    /** The section of `publish` from taking the lock to its first await. */
    method Publish(e: Event) returns (done: bool)
      requires waiting.None?
      modifies this
      ensures View() == BeginPublish(old(View()), e)
    {
      var numbered := e.(number := nextNumber);
      nextNumber := nextNumber + 1;
      done := TryPut(numbered);
    }

    method GiveUpWaiting()
      requires waiting.Some?
      modifies this
      ensures View() == GiveUp(old(View()))
    {
      lost := lost + [waiting.value.number];
      waiting := None;
    }

    method GetState() returns (e: Event)
      requires stateQueue != []
      modifies this
      ensures View() == Do(old(View()), TakeState) && e == old(stateQueue)[0]
    {
      e := stateQueue[0];
      stateTaken := stateTaken + [e];
      stateQueue := stateQueue[1..];
    }

    method GetStorage() returns (e: Event)
      requires storageQueue != []
      modifies this
      ensures View() == Do(old(View()), TakeStorage) && e == old(storageQueue)[0]
    {
      e := storageQueue[0];
      storageTaken := storageTaken + [e];
      storageQueue := storageQueue[1..];
    }

    /** `close`. */
    method Shut()
      modifies this`closed
      ensures View() == Do(old(View()), Close)
    {
      closed := true;
    }

    /** Whatever happens on the bus between two awaits is one step of the system. */
    method Perform(step: Step)
      requires Enabled(View(), step)
      modifies this
      ensures View() == Do(old(View()), step)
    {
      match step {
        case Begin(e) => var done := Publish(e);
        case Retry => var done := TryPut(waiting.value);
        case TimeOut => GiveUpWaiting();
        case Cancel => GiveUpWaiting();
        case TakeState => var e := GetState();
        case TakeStorage => var e := GetStorage();
        case Close => Shut();
      }
    }
  }

  // What every interleaving keeps.

  /** Both sides have the same past: what a consumer took, then what still waits for it, is what was published. */
  predicate SameOnBothSides(b: Bus) {
    b.stateTaken + b.state.items == b.published == b.storageTaken + b.storage.items
  }

  predicate WithinCapacity(q: Queue, high: nat) {
    |q.items| <= high && (q.capacity > 0 ==> high <= q.capacity)
  }

  /** The number is given out, and nobody holds it any more. */
  predicate GivenOut(b: Bus, first: int, number: int) {
    first <= number < b.next - if b.waiting.Some? then 1 else 0
  }

  /** The numbers given out from `first` on: published, lost, or held by the waiting publisher, each once. */
  ghost predicate Accounted(b: Bus, first: int) {
    && b.next == first + |b.published| + |b.lost| + (if b.waiting.Some? then 1 else 0)
    && (b.waiting.Some? ==> b.waiting.value.number == b.next - 1)
    && Increasing(b.published)
    && (forall i :: 0 <= i < |b.published| ==> GivenOut(b, first, b.published[i].number))
    && (forall j :: 0 <= j < |b.lost| ==> GivenOut(b, first, b.lost[j]))
    && (forall i, j :: 0 <= i < |b.published| && 0 <= j < |b.lost| ==> b.published[i].number != b.lost[j])
  }

  predicate Flows(b: Bus, start: Bus) {
    && SameOnBothSides(b)
    && WithinCapacity(b.state, b.highState) && WithinCapacity(b.storage, b.highStorage)
    && b.state.capacity == start.state.capacity && b.storage.capacity == start.storage.capacity
  }

  ghost predicate Inv(b: Bus, start: Bus) {
    Flows(b, start) && Accounted(b, start.next)
  }

  lemma PutFlows(b: Bus, e: Event, start: Bus)
    requires Flows(b, start) && !Blocked(b)
    ensures Flows(PutBoth(b, e), start)
  {
    assert b.stateTaken + (b.state.items + [e]) == b.stateTaken + b.state.items + [e];
    assert b.storageTaken + (b.storage.items + [e]) == b.storageTaken + b.storage.items + [e];
  }

  /** The state of the books while a publisher holds number `next - 1`. */
  ghost predicate Holding(b: Bus, e: Event, first: int) {
    Accounted(b.(waiting := Some(e)), first)
  }

  lemma PutAccounts(b: Bus, e: Event, first: int)
    requires Holding(b, e, first) && !Blocked(b)
    ensures Accounted(PutBoth(b, e), first)
  {
    var held, t := b.(waiting := Some(e)), PutBoth(b, e);
    forall i | 0 <= i < |b.published|
      ensures GivenOut(t, first, b.published[i].number) && b.published[i].number < e.number
    {
      assert GivenOut(held, first, b.published[i].number);
    }
    forall j | 0 <= j < |b.lost| ensures GivenOut(t, first, b.lost[j]) && b.lost[j] < e.number {
      assert GivenOut(held, first, b.lost[j]);
    }
  }

  lemma NumberHeld(b: Bus, e: Event, first: int)
    requires Accounted(b, first) && b.waiting.None?
    ensures Holding(b.(next := b.next + 1), e.(number := b.next), first)
  {
    var t := b.(next := b.next + 1, waiting := Some(e.(number := b.next)));
    forall i | 0 <= i < |b.published| ensures GivenOut(t, first, b.published[i].number) {
      assert GivenOut(b, first, b.published[i].number);
    }
    forall j | 0 <= j < |b.lost| ensures GivenOut(t, first, b.lost[j]) {
      assert GivenOut(b, first, b.lost[j]);
    }
  }

  lemma PutOrWaitKeeps(b: Bus, e: Event, start: Bus)
    requires Flows(b, start) && Holding(b, e, start.next)
    ensures Inv(PutOrWait(b, e), start)
  {
    if !Blocked(b) {
      PutFlows(b, e, start);
      PutAccounts(b, e, start.next);
    }
  }

  lemma GiveUpKeeps(b: Bus, start: Bus)
    requires Inv(b, start) && b.waiting.Some?
    ensures Inv(GiveUp(b), start)
  {
    var t := GiveUp(b);
    forall i | 0 <= i < |t.published|
      ensures GivenOut(t, start.next, t.published[i].number) && t.published[i].number < b.next - 1
    {
      assert GivenOut(b, start.next, b.published[i].number);
    }
    forall j | 0 <= j < |t.lost| ensures GivenOut(t, start.next, t.lost[j]) {
      assert j < |b.lost| ==> GivenOut(b, start.next, b.lost[j]);
    }
  }

  lemma SameAccounts(b: Bus, t: Bus, first: int)
    requires Accounted(b, first) && t.published == b.published && t.lost == b.lost
    requires t.next == b.next && t.waiting == b.waiting
    ensures Accounted(t, first)
  {
    forall i | 0 <= i < |b.published| ensures GivenOut(t, first, b.published[i].number) {
      assert GivenOut(b, first, b.published[i].number);
    }
    forall j | 0 <= j < |b.lost| ensures GivenOut(t, first, b.lost[j]) {
      assert GivenOut(b, first, b.lost[j]);
    }
  }

  lemma TakeKeeps(b: Bus, step: Step, start: Bus)
    requires Inv(b, start) && Enabled(b, step) && (step.TakeState? || step.TakeStorage? || step.Close?)
    ensures Inv(Do(b, step), start)
  {
    SameAccounts(b, Do(b, step), start.next);
    if step.TakeState? {
      assert b.state.items == [b.state.items[0]] + b.state.items[1..];
    } else if step.TakeStorage? {
      assert b.storage.items == [b.storage.items[0]] + b.storage.items[1..];
    }
  }

  lemma DoKeeps(b: Bus, step: Step, start: Bus)
    requires Inv(b, start) && Enabled(b, step)
    ensures Inv(Do(b, step), start)
  {
    match step {
      case Begin(e) =>
        NumberHeld(b, e, start.next);
        PutOrWaitKeeps(b.(next := b.next + 1), e.(number := b.next), start);
      case Retry =>
        assert b.(waiting := Some(b.waiting.value)) == b;
        PutOrWaitKeeps(b, b.waiting.value, start);
      case TimeOut => GiveUpKeeps(b, start);
      case Cancel => GiveUpKeeps(b, start);
      case TakeState => TakeKeeps(b, step, start);
      case TakeStorage => TakeKeeps(b, step, start);
      case Close => TakeKeeps(b, step, start);
    }
  }

  lemma {:induction false} RunInv(start: Bus, steps: seq<Step>)
    requires Inv(start, start)
    ensures Run(start, steps).Some? ==> Inv(Run(start, steps).value, start)
  {
    if steps != [] {
      RunInv(start, steps[..|steps| - 1]);
      var before := Run(start, steps[..|steps| - 1]);
      if before.Some? && Enabled(before.value, steps[|steps| - 1]) {
        DoKeeps(before.value, steps[|steps| - 1], start);
      }
    }
  }

  /**
   In every interleaving of publishers and the two consumers: what was taken and what is queued is the
   same sequence on both sides; neither queue ever held more than its capacity; and as long as no
   publisher has given up, the published numbers are first, first + 1, first + 2, ...
   */
  lemma {:induction false} FanOut(stateCapacity: int, storageCapacity: int, first: int, steps: seq<Step>)
    requires Run(NewBus(stateCapacity, storageCapacity, first), steps).Some?
    ensures var b := Run(NewBus(stateCapacity, storageCapacity, first), steps).value;
            && b.stateTaken + b.state.items == b.storageTaken + b.storage.items == b.published
            && (stateCapacity > 0 ==> |b.state.items| <= b.highState <= stateCapacity)
            && (storageCapacity > 0 ==> |b.storage.items| <= b.highStorage <= storageCapacity)
            && (b.lost == [] ==> forall i :: 0 <= i < |b.published| ==> b.published[i].number == first + i)
  {
    RunInv(NewBus(stateCapacity, storageCapacity, first), steps);
    var b := Run(NewBus(stateCapacity, storageCapacity, first), steps).value;
    if b.lost == [] {
      NoneLost(b, first);
    }
  }

  lemma NoneLost(b: Bus, first: int)
    requires Accounted(b, first) && b.lost == []
    ensures forall i :: 0 <= i < |b.published| ==> b.published[i].number == first + i
  {
    forall i | 0 <= i < |b.published| ensures first <= b.published[i].number < first + |b.published| {
      assert GivenOut(b, first, b.published[i].number);
    }
    IncreasingFull(b.published, first, first + |b.published|);
  }

  /** Increasing whole numbers that just fill an interval are all of it. */
  lemma {:induction false} IncreasingFull(events: seq<Event>, from: int, to: int)
    requires Increasing(events) && |events| == to - from
    requires forall i :: 0 <= i < |events| ==> from <= events[i].number < to
    ensures forall i :: 0 <= i < |events| ==> events[i].number == from + i
  {
    if events != [] {
      var front, last := events[..|events| - 1], events[|events| - 1];
      AtLeast(events, from, |events| - 1);
      IncreasingFull(front, from, to - 1);
      forall i | 0 <= i < |events| ensures events[i].number == from + i {
        assert i < |front| ==> front[i] == events[i];
      }
    }
  }

  lemma {:induction false} AtLeast(events: seq<Event>, from: int, k: nat)
    requires Increasing(events) && k < |events| && events[0].number >= from
    ensures events[k].number >= from + k
  {
    if k > 0 {
      AtLeast(events, from, k - 1);
    }
  }

  /**
   A publisher that gives up leaves a hole: the published numbers still increase, a lost number is never
   published, and every number given out is accounted for.
   */
  lemma {:induction false} LostNumbersAreHoles(stateCapacity: int, storageCapacity: int, first: int, steps: seq<Step>)
    requires Run(NewBus(stateCapacity, storageCapacity, first), steps).Some?
    ensures var b := Run(NewBus(stateCapacity, storageCapacity, first), steps).value;
            && Increasing(b.published)
            && (forall i, j :: 0 <= i < |b.published| && 0 <= j < |b.lost| ==> b.published[i].number != b.lost[j])
            && b.next - first == |b.published| + |b.lost| + if b.waiting.Some? then 1 else 0
  {
    RunInv(NewBus(stateCapacity, storageCapacity, first), steps);
  }

  // The high-water marks.

  /** The mark is the most that was ever queued: it was reached, and never exceeded. */
  ghost predicate HighIs(sizes: seq<nat>, high: nat) {
    && (forall k :: 0 <= k < |sizes| ==> sizes[k] <= high)
    && (exists k :: 0 <= k < |sizes| && sizes[k] == high)
  }

  /** The bus is closed if and only if it has been closed at some point. */
  lemma {:induction false} ClosedIff(start: Bus, steps: seq<Step>)
    requires !start.closed && Run(start, steps).Some?
    ensures Run(start, steps).value.closed <==> exists i :: 0 <= i < |steps| && steps[i].Close?
  {
    if steps != [] {
      var front, last := steps[..|steps| - 1], steps[|steps| - 1];
      ClosedIff(start, front);
      StepCloses(Run(start, front).value, last);
      assert forall i :: 0 <= i < |front| ==> front[i] == steps[i];
    }
  }

  lemma StepCloses(b: Bus, step: Step)
    requires Enabled(b, step)
    ensures Do(b, step).closed <==> b.closed || step.Close?
  {
  }

  lemma HighSnoc(sizes: seq<nat>, high: nat, size: nat)
    requires HighIs(sizes, high)
    ensures HighIs(sizes + [size], Max(high, size))
  {
    var k :| 0 <= k < |sizes| && sizes[k] == high;
    assert (sizes + [size])[k] == high && (sizes + [size])[|sizes|] == size;
  }

  /** How much was queued for the state, or for storage, at the start and after each step. */
  function StateSizes(start: Bus, steps: seq<Step>): seq<nat>
    requires Run(start, steps).Some?
  {
    if steps == [] then [|start.state.items|]
    else StateSizes(start, steps[..|steps| - 1]) + [|Run(start, steps).value.state.items|]
  }

  function StorageSizes(start: Bus, steps: seq<Step>): seq<nat>
    requires Run(start, steps).Some?
  {
    if steps == [] then [|start.storage.items|]
    else StorageSizes(start, steps[..|steps| - 1]) + [|Run(start, steps).value.storage.items|]
  }

  lemma StepHigh(b: Bus, step: Step)
    requires Enabled(b, step) && |b.state.items| <= b.highState && |b.storage.items| <= b.highStorage
    ensures var t := Do(b, step);
            t.highState == Max(b.highState, |t.state.items|) && t.highStorage == Max(b.highStorage, |t.storage.items|)
  {
  }

  /** The two high-water marks are exactly the most that either queue ever held. */
  lemma {:induction false} HighWater(stateCapacity: int, storageCapacity: int, first: int, steps: seq<Step>)
    requires Run(NewBus(stateCapacity, storageCapacity, first), steps).Some?
    ensures var start := NewBus(stateCapacity, storageCapacity, first);
            var b := Run(start, steps).value;
            HighIs(StateSizes(start, steps), b.highState) && HighIs(StorageSizes(start, steps), b.highStorage)
  {
    var start := NewBus(stateCapacity, storageCapacity, first);
    if steps == [] {
      assert [0][0] == 0;
    } else {
      var front := steps[..|steps| - 1];
      HighWater(stateCapacity, storageCapacity, first, front);
      RunInv(start, front);
      var b := Run(start, front).value;
      StepHigh(b, steps[|steps| - 1]);
      HighSnoc(StateSizes(start, front), b.highState, |Run(start, steps).value.state.items|);
      HighSnoc(StorageSizes(start, front), b.highStorage, |Run(start, steps).value.storage.items|);
    }
  }
}
