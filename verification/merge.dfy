/** The heap merge of several event streams back into one numbered run (market_data/replay.py:93-117). */
module Merge {
  import opened Wrappers
  import opened Models

  datatype ReplayError =
    | InvalidManifest | MissingSegment | HashMismatch | InvalidEvent | CannotDecompress
    | CountMismatch | BoundsMismatch | OverlappingRanges | GapOrDuplicate(expected: int, got: int)

  /**
   A lazily read stream, or what reading one gave: the events it yields, and the error that is
   raised when the next one is asked for (None when it just ends).
   */
  datatype Stream = Stream(events: seq<Event>, error: Option<ReplayError>)

  // What the merge promises about.

  ghost predicate Holds(streams: seq<Stream>, e: Event) {
    exists j :: 0 <= j < |streams| && e in streams[j].events
  }

  /** The streams split the events of `run` between them, each event in exactly one of them. */
  ghost predicate Partition(streams: seq<Stream>, run: seq<Event>) {
    && (forall e :: e in run <==> Holds(streams, e))
    && (forall i, j, e :: 0 <= i < j < |streams| && e in streams[i].events ==> e !in streams[j].events)
  }

  ghost predicate AllIncreasing(streams: seq<Stream>) {
    forall i :: 0 <= i < |streams| ==> Increasing(streams[i].events)
  }

  ghost predicate NoneFails(streams: seq<Stream>) {
    forall i :: 0 <= i < |streams| ==> streams[i].error == None
  }

  // The merge itself.

  /** Index of the first stream that has ended with an error, else the number of streams. */
  function FirstFailed(streams: seq<Stream>): (k: nat)
    ensures k <= |streams|
    ensures k < |streams| ==> streams[k].events == [] && streams[k].error.Some?
    ensures forall j :: 0 <= j < k ==> streams[j].events == [] ==> streams[j].error == None
  {
    if streams == [] || (streams[0].events == [] && streams[0].error.Some?) then 0
    else 1 + FirstFailed(streams[1..])
  }

  /** The heap holds the head of every stream that has one; its least entry has the least number, then index. */
  function LeastHead(streams: seq<Stream>): (least: Option<nat>)
    ensures least.Some? ==> least.value < |streams| && streams[least.value].events != []
  {
    if streams == [] then None
    else
      var last := |streams| - 1;
      var before := LeastHead(streams[..last]);
      if streams[last].events == [] then before
      else if before.None? then Some(last)
      else if streams[last].events[0].number < streams[before.value].events[0].number then Some(last)
      else before
  }

  lemma {:induction false} LeastHeadIsLeast(streams: seq<Stream>)
    ensures var least := LeastHead(streams);
            && (least.None? <==> forall i :: 0 <= i < |streams| ==> streams[i].events == [])
            && (least.Some? ==> forall i :: 0 <= i < |streams| && streams[i].events != [] ==>
                  streams[least.value].events[0].number <= streams[i].events[0].number)
            && (least.Some? ==> forall i :: 0 <= i < least.value && streams[i].events != [] ==>
                  streams[least.value].events[0].number < streams[i].events[0].number)
  {
    if streams != [] {
      var front := streams[..|streams| - 1];
      LeastHeadIsLeast(front);
      assert forall i :: 0 <= i < |front| ==> front[i] == streams[i];
    }
  }

  function Remaining(streams: seq<Stream>): (n: nat) {
    if streams == [] then 0 else |streams[0].events| + Remaining(streams[1..])
  }

  /** Stream `i` after its head has been taken. */
  function Advance(streams: seq<Stream>, i: nat): (rest: seq<Stream>)
    requires i < |streams| && streams[i].events != []
    ensures |rest| == |streams| && Remaining(rest) == Remaining(streams) - 1
  {
    RemainingAfter(streams, i, Stream(streams[i].events[1..], streams[i].error));
    streams[i := Stream(streams[i].events[1..], streams[i].error)]
  }

  lemma {:induction false} RemainingAfter(streams: seq<Stream>, i: nat, s: Stream)
    requires i < |streams|
    ensures Remaining(streams[i := s]) == Remaining(streams) - |streams[i].events| + |s.events|
  {
    if i == 0 {
      assert streams[i := s][1..] == streams[1..];
    } else {
      RemainingAfter(streams[1..], i - 1, s);
      assert streams[i := s][1..] == streams[1..][i - 1 := s];
    }
  }

  /** The merging loop once the heap is built; `expected` is the next number it insists on. */
  function MergeFrom(streams: seq<Stream>, expected: Option<int>): (merged: Stream)
    decreases Remaining(streams)
  {
    var least := LeastHead(streams);
    if least.None? then Stream([], None)
    else
      var i := least.value;
      var head := streams[i].events[0];
      if expected.Some? && head.number != expected.value then
        Stream([], Some(GapOrDuplicate(expected.value, head.number)))
      else
        var rest := Advance(streams, i);
        if rest[i].events == [] && rest[i].error.Some? then Stream([head], rest[i].error)
        else
          var more := MergeFrom(rest, Some(head.number + 1));
          Stream([head] + more.events, more.error)
  }

  /** `merge_raw_streams`: building the heap asks every stream, in order, for its first event. */
  function MergeStreams(streams: seq<Stream>): Stream {
    var k := FirstFailed(streams);
    if k < |streams| then Stream([], streams[k].error) else MergeFrom(streams, None)
  }

  /** What has been yielded so far, followed by all that is still to come. */
  function Resumed(yielded: seq<Event>, rest: Stream): Stream {
    Stream(yielded + rest.events, rest.error)
  }

  lemma ResumeMerge(yielded: seq<Event>, heap: seq<Stream>, expected: Option<int>)
    ensures var least := LeastHead(heap);
            Resumed(yielded, MergeFrom(heap, expected)) ==
            if least.None? then Stream(yielded, None)
            else
              var i := least.value;
              var head, rest := heap[i].events[0], Advance(heap, i);
              if expected.Some? && head.number != expected.value then
                Stream(yielded, Some(GapOrDuplicate(expected.value, head.number)))
              else if rest[i].events == [] && rest[i].error.Some? then Stream(yielded + [head], rest[i].error)
              else Resumed(yielded + [head], MergeFrom(rest, Some(head.number + 1)))
  {
    var least := LeastHead(heap);
    if least.Some? {
      var head := heap[least.value].events[0];
      var more := MergeFrom(Advance(heap, least.value), Some(head.number + 1));
      assert yielded + ([head] + more.events) == yielded + [head] + more.events;
    }
    assert yielded + [] == yielded;
  }

  method MergeRawStreams(streams: seq<Stream>) returns (merged: Stream)
    ensures merged == MergeStreams(streams)
  {
    for k := 0 to |streams|
      invariant forall j :: 0 <= j < k ==> streams[j].events == [] ==> streams[j].error == None
    {
      if streams[k].events == [] && streams[k].error.Some? {
        return Stream([], streams[k].error);
      }
    }
    merged := MergeHeap(streams);
  }

  /** The loop over the heap. */
  method MergeHeap(streams: seq<Stream>) returns (merged: Stream)
    ensures merged == MergeFrom(streams, None)
  {
    var heap, expected, yielded := streams, None, [];
    while true
      invariant MergeFrom(streams, None) == Resumed(yielded, MergeFrom(heap, expected))
      decreases Remaining(heap)
    {
      ResumeMerge(yielded, heap, expected);
      var least := LeastHead(heap);
      if least.None? {
        return Stream(yielded, None);
      }
      var i := least.value;
      var e := heap[i].events[0];
      if expected == None {
        expected := Some(e.number);
      }
      if e.number != expected.value {
        return Stream(yielded, Some(GapOrDuplicate(expected.value, e.number)));
      }
      yielded := yielded + [e];
      expected := Some(expected.value + 1);
      heap := Advance(heap, i);
      if heap[i].events == [] && heap[i].error.Some? {
        return Stream(yielded, heap[i].error);
      }
    }
  }

  // Whatever the streams hold, nothing out of sequence is ever yielded.

  lemma {:induction false} YieldsConsecutiveFrom(streams: seq<Stream>, expected: Option<int>)
    ensures Consecutive(MergeFrom(streams, expected).events)
    ensures expected.Some? && MergeFrom(streams, expected).events != [] ==>
              MergeFrom(streams, expected).events[0].number == expected.value
    decreases Remaining(streams)
  {
    var least := LeastHead(streams);
    if least.Some? {
      YieldsConsecutiveFrom(Advance(streams, least.value), Some(streams[least.value].events[0].number + 1));
    }
  }

  /** For arbitrary streams, what is yielded before an error or the end is a consecutive run. */
  lemma YieldsConsecutive(streams: seq<Stream>)
    ensures Consecutive(MergeStreams(streams).events)
  {
    YieldsConsecutiveFrom(streams, None);
  }

  // Increasing streams merge completely exactly when together they form one run.

  lemma IncreasingTail(events: seq<Event>)
    requires events != [] && Increasing(events)
    ensures Increasing(events[1..]) && events[0] !in events[1..]
  {
    forall k | 0 <= k < |events| - 1 ensures events[1..][k] != events[0] {
      assert events[1..][k] == events[k + 1];
    }
  }

  lemma AdvanceHolds(streams: seq<Stream>, i: nat, e: Event)
    requires i < |streams| && streams[i].events != []
    ensures Holds(streams, e) <==> e == streams[i].events[0] || Holds(Advance(streams, i), e)
  {
    var rest := Advance(streams, i);
    assert streams[i].events == [streams[i].events[0]] + rest[i].events;
    if Holds(streams, e) && e != streams[i].events[0] {
      var j :| 0 <= j < |streams| && e in streams[j].events;
      assert e in rest[j].events;
    }
    if Holds(rest, e) {
      var j :| 0 <= j < |rest| && e in rest[j].events;
      assert e in streams[j].events;
    }
  }

  /** Taking the head of the run off the stream that holds it leaves a partition of the rest. */
  lemma AdvancePartition(streams: seq<Stream>, i: nat, run: seq<Event>)
    requires i < |streams| && streams[i].events != [] && run != []
    requires AllIncreasing(streams) && Partition(streams, run) && Consecutive(run)
    requires streams[i].events[0] == run[0]
    ensures AllIncreasing(Advance(streams, i)) && Partition(Advance(streams, i), run[1..])
    ensures Consecutive(run[1..])
  {
    var rest, head := Advance(streams, i), run[0];
    IncreasingTail(streams[i].events);
    IncreasingTail(run);
    assert forall j, e :: 0 <= j < |rest| && e in rest[j].events ==> e in streams[j].events;
    assert !Holds(rest, head);
    forall e ensures e in run[1..] <==> Holds(rest, e) {
      AdvanceHolds(streams, i, e);
      assert run == [head] + run[1..];
    }
  }

  /** In a partition of a run, the least head is the first event of the run. */
  lemma {:induction false} LeastIsFirst(streams: seq<Stream>, run: seq<Event>)
    requires run != [] && Consecutive(run) && AllIncreasing(streams) && Partition(streams, run)
    ensures LeastHead(streams).Some? && streams[LeastHead(streams).value].events[0] == run[0]
  {
    LeastHeadIsLeast(streams);
    assert run[0] in run && Holds(streams, run[0]);
    var j :| 0 <= j < |streams| && run[0] in streams[j].events;
    var least := streams[LeastHead(streams).value].events[0];
    assert Holds(streams, least) && least in run;
    assert streams[j].events[0].number <= run[0].number;
  }

  lemma {:induction false} MergesRunFrom(streams: seq<Stream>, run: seq<Event>, expected: Option<int>)
    requires AllIncreasing(streams) && NoneFails(streams)
    requires Consecutive(run) && Partition(streams, run)
    requires expected.Some? && run != [] ==> run[0].number == expected.value
    ensures MergeFrom(streams, expected) == Stream(run, None)
    decreases Remaining(streams)
  {
    if run == [] {
      LeastHeadIsLeast(streams);
      forall i | 0 <= i < |streams| ensures streams[i].events == [] {
        if streams[i].events != [] {
          assert Holds(streams, streams[i].events[0]);
        }
      }
    } else {
      LeastIsFirst(streams, run);
      var i := LeastHead(streams).value;
      AdvancePartition(streams, i, run);
      MergesRunFrom(Advance(streams, i), run[1..], Some(run[0].number + 1));
      assert run == [run[0]] + run[1..];
    }
  }

  /** Whatever order the streams come in, a run split between increasing streams is put back together. */
  lemma MergesRun(streams: seq<Stream>, run: seq<Event>)
    requires AllIncreasing(streams) && NoneFails(streams)
    requires Consecutive(run) && Partition(streams, run)
    ensures MergeStreams(streams) == Stream(run, None)
  {
    MergesRunFrom(streams, run, None);
  }

  lemma {:induction false} CompleteMergePartitions(streams: seq<Stream>, expected: Option<int>)
    requires AllIncreasing(streams) && MergeFrom(streams, expected).error == None
    ensures Partition(streams, MergeFrom(streams, expected).events)
    decreases Remaining(streams)
  {
    var run := MergeFrom(streams, expected).events;
    var least := LeastHead(streams);
    if least.None? {
      LeastHeadIsLeast(streams);
      assert forall e :: !Holds(streams, e);
    } else {
      var i := least.value;
      var head, rest := streams[i].events[0], Advance(streams, i);
      IncreasingTail(streams[i].events);
      CompleteMergePartitions(rest, Some(head.number + 1));
      YieldsConsecutiveFrom(rest, Some(head.number + 1));
      var more := MergeFrom(rest, Some(head.number + 1)).events;
      assert !Holds(rest, head);
      forall e ensures e in run <==> Holds(streams, e) {
        AdvanceHolds(streams, i, e);
      }
      PutBackDisjoint(streams, i, more);
    }
  }

  /** Putting a head that no other stream holds back on its stream keeps the streams disjoint. */
  lemma PutBackDisjoint(streams: seq<Stream>, i: nat, more: seq<Event>)
    requires i < |streams| && streams[i].events != []
    requires Partition(Advance(streams, i), more) && !Holds(Advance(streams, i), streams[i].events[0])
    ensures forall j, k, e :: 0 <= j < k < |streams| && e in streams[j].events ==> e !in streams[k].events
  {
    var head, rest := streams[i].events[0], Advance(streams, i);
    assert streams[i].events == [head] + rest[i].events;
    forall j | 0 <= j < |streams| && j != i ensures head !in streams[j].events && rest[j] == streams[j] {
      assert head !in rest[j].events;
    }
  }

  /**
   Increasing streams are merged to the end exactly when some consecutively numbered run is split
   between them, and then the merge yields that run.
   */
  lemma CompletesIffOneRun(streams: seq<Stream>)
    requires AllIncreasing(streams) && NoneFails(streams)
    ensures MergeStreams(streams).error == None <==>
            exists run :: Consecutive(run) && Partition(streams, run)
    ensures forall run :: Consecutive(run) && Partition(streams, run) ==>
              MergeStreams(streams).events == run
  {
    if MergeStreams(streams).error == None {
      CompleteMergePartitions(streams, None);
      YieldsConsecutive(streams);
      assert Consecutive(MergeStreams(streams).events) && Partition(streams, MergeStreams(streams).events);
    }
    forall run | Consecutive(run) && Partition(streams, run)
      ensures MergeStreams(streams) == Stream(run, None)
    {
      MergesRun(streams, run);
    }
  }

  // Where a merge that does not complete stops.

  ghost predicate HasNumber(events: seq<Event>, number: int) {
    exists k :: 0 <= k < |events| && events[k].number == number
  }

  /** Two of the streams hold an event of that number. */
  ghost predicate HeldTwice(streams: seq<Stream>, number: int) {
    exists i, j :: 0 <= i < j < |streams| &&
                   HasNumber(streams[i].events, number) && HasNumber(streams[j].events, number)
  }

  ghost predicate NumberHeld(streams: seq<Stream>, number: int) {
    exists j :: 0 <= j < |streams| && HasNumber(streams[j].events, number)
  }

  /** Nothing held has a number from `x` up to `got`. */
  ghost predicate NoneBetween(streams: seq<Stream>, x: int, got: int) {
    forall n :: x <= n < got ==> !NumberHeld(streams, n)
  }

  /** Every number held is at least `least`. */
  ghost predicate AllFrom(streams: seq<Stream>, least: int) {
    forall n :: NumberHeld(streams, n) ==> n >= least
  }

  /**
   The merge stopped because, after the number before `x`, the next event has the number `got`: the number before `x`
   again, or a later one than `x`, with no event held of any number from `x` up to it.
   */
  ghost predicate StopsAt(streams: seq<Stream>, x: int, got: int) {
    NumberHeld(streams, got) && (got == x - 1 || (got > x && NoneBetween(streams, x, got)))
  }

  /** What an error of the loop that expects `expected` says. */
  ghost predicate Stopped(streams: seq<Stream>, m: Stream, expected: Option<int>) {
    m.error.Some? ==>
      && m.error.value.GapOrDuplicate? && StopsAt(streams, m.error.value.expected, m.error.value.got)
      && (if m.events == [] then expected == Some(m.error.value.expected)
          else && m.events[|m.events| - 1].number + 1 == m.error.value.expected
               && (m.error.value.got < m.error.value.expected ==> HeldTwice(streams, m.error.value.got)))
  }

  lemma {:induction false} LeastNumber(streams: seq<Stream>, n: int)
    requires AllIncreasing(streams) && NumberHeld(streams, n)
    ensures LeastHead(streams).Some?
    ensures var least := streams[LeastHead(streams).value].events[0].number;
            least <= n && NumberHeld(streams, least)
  {
    LeastHeadIsLeast(streams);
    var j :| 0 <= j < |streams| && HasNumber(streams[j].events, n);
    assert streams[j].events[0].number <= n;
    var i := LeastHead(streams).value;
    TailAbove(streams[i].events);
  }

  lemma TailAbove(events: seq<Event>)
    requires events != [] && Increasing(events)
    ensures HasNumber(events, events[0].number) && !HasNumber(events[1..], events[0].number)
  {
    assert forall k :: 0 <= k < |events| - 1 ==> events[1..][k] == events[k + 1];
  }

  /** Taking the head off a stream leaves its other numbers where they were. */
  lemma AdvanceNumber(streams: seq<Stream>, i: nat, j: nat, n: int)
    requires i < |streams| && streams[i].events != [] && j < |streams|
    ensures HasNumber(Advance(streams, i)[j].events, n) ==> HasNumber(streams[j].events, n)
    ensures HasNumber(streams[j].events, n) ==>
              HasNumber(Advance(streams, i)[j].events, n) || (j == i && n == streams[i].events[0].number)
  {
    if j == i {
      var rest := streams[i].events[1..];
      if k :| 0 <= k < |rest| && rest[k].number == n {
        assert streams[i].events[k + 1] == rest[k];
      }
      if k :| 0 <= k < |streams[i].events| && streams[i].events[k].number == n {
        assert k > 0 ==> rest[k - 1] == streams[i].events[k];
      }
    }
  }

  lemma AdvanceNumbers(streams: seq<Stream>, i: nat, n: int)
    requires i < |streams| && streams[i].events != []
    ensures NumberHeld(Advance(streams, i), n) ==> NumberHeld(streams, n)
    ensures NumberHeld(streams, n) ==> NumberHeld(Advance(streams, i), n) || n == streams[i].events[0].number
  {
    if j :| 0 <= j < |streams| && HasNumber(Advance(streams, i)[j].events, n) {
      AdvanceNumber(streams, i, j, n);
    }
    if j :| 0 <= j < |streams| && HasNumber(streams[j].events, n) {
      AdvanceNumber(streams, i, j, n);
    }
  }

  /** Once the least head is taken, whatever is left is not before it, and has its number only in another stream. */
  lemma {:induction false} AdvanceAbove(streams: seq<Stream>, i: nat, n: int)
    requires AllIncreasing(streams) && LeastHead(streams) == Some(i) && NumberHeld(Advance(streams, i), n)
    ensures n >= streams[i].events[0].number
    ensures n == streams[i].events[0].number ==> HeldTwice(streams, n)
  {
    var rest := Advance(streams, i);
    AdvanceNumbers(streams, i, n);
    LeastNumber(streams, n);
    if n == streams[i].events[0].number {
      var j :| 0 <= j < |rest| && HasNumber(rest[j].events, n);
      AdvanceNumber(streams, i, j, n);
      TailAbove(streams[i].events);
      assert j != i && HasNumber(streams[i].events, n);
    }
  }

  lemma TwiceBefore(streams: seq<Stream>, i: nat, n: int)
    requires i < |streams| && streams[i].events != [] && HeldTwice(Advance(streams, i), n)
    ensures HeldTwice(streams, n)
  {
    var rest := Advance(streams, i);
    var j, k :| 0 <= j < k < |rest| && HasNumber(rest[j].events, n) && HasNumber(rest[k].events, n);
    AdvanceNumber(streams, i, j, n);
    AdvanceNumber(streams, i, k, n);
  }

  lemma {:induction false} StopsNow(streams: seq<Stream>, i: nat, x: int)
    requires AllIncreasing(streams) && AllFrom(streams, x - 1)
    requires LeastHead(streams) == Some(i) && streams[i].events[0].number != x
    ensures StopsAt(streams, x, streams[i].events[0].number)
  {
    TailAbove(streams[i].events);
    assert NumberHeld(streams, streams[i].events[0].number);
    forall n | NumberHeld(streams, n) ensures n >= streams[i].events[0].number {
      LeastNumber(streams, n);
    }
  }

  lemma {:induction false} RestStands(streams: seq<Stream>, i: nat)
    requires AllIncreasing(streams) && NoneFails(streams) && LeastHead(streams) == Some(i)
    ensures var rest := Advance(streams, i);
            AllIncreasing(rest) && NoneFails(rest) && AllFrom(rest, streams[i].events[0].number)
  {
    IncreasingTail(streams[i].events);
    forall n | NumberHeld(Advance(streams, i), n) ensures n >= streams[i].events[0].number {
      AdvanceAbove(streams, i, n);
    }
  }

  lemma {:induction false} StopsFrom(streams: seq<Stream>, expected: Option<int>)
    requires AllIncreasing(streams) && NoneFails(streams)
    requires expected.Some? ==> AllFrom(streams, expected.value - 1)
    ensures Stopped(streams, MergeFrom(streams, expected), expected)
    decreases Remaining(streams)
  {
    var m, least := MergeFrom(streams, expected), LeastHead(streams);
    if m.error.Some? {
      var i := least.value;
      var head, rest := streams[i].events[0], Advance(streams, i);
      if expected.Some? && head.number != expected.value {
        StopsNow(streams, i, expected.value);
      } else {
        RestStands(streams, i);
        StopsFrom(rest, Some(head.number + 1));
        YieldsConsecutiveFrom(rest, Some(head.number + 1));
        StopsLater(streams, i, MergeFrom(rest, Some(head.number + 1)), expected);
      }
    }
  }

  lemma {:induction false} StopsLater(streams: seq<Stream>, i: nat, more: Stream, expected: Option<int>)
    requires AllIncreasing(streams) && LeastHead(streams) == Some(i) && more.error.Some?
    requires Stopped(Advance(streams, i), more, Some(streams[i].events[0].number + 1)) && Consecutive(more.events)
    requires more.events != [] ==> more.events[0].number == streams[i].events[0].number + 1
    ensures Stopped(streams, Stream([streams[i].events[0]] + more.events, more.error), expected)
  {
    var head, x, got := streams[i].events[0], more.error.value.expected, more.error.value.got;
    AdvanceNumbers(streams, i, got);
    AdvanceAbove(streams, i, got);
    assert head.number < x;
    forall n | x <= n < got ensures !NumberHeld(streams, n) {
      AdvanceNumbers(streams, i, n);
    }
    if got < x && more.events != [] {
      TwiceBefore(streams, i, got);
    }
  }

  /**
   What a merge of increasing, readable streams yields: a run from the least number held on, as long as it can be.
   It stops with an error only where the next number is missing while later ones are held, or is held twice; the
   error names the number expected and the number met.
   */
  lemma {:induction false} MergeStops(streams: seq<Stream>)
    requires AllIncreasing(streams) && NoneFails(streams)
    ensures var m := MergeStreams(streams);
            && Consecutive(m.events) && (m.events == [] ==> m.error.None?)
            && (forall n :: NumberHeld(streams, n) ==> m.events != [] && m.events[0].number <= n)
            && (m.error.Some? ==>
                  var x := m.events[|m.events| - 1].number + 1;
                  && m.error.value.GapOrDuplicate? && m.error.value.expected == x
                  && NumberHeld(streams, m.error.value.got)
                  && (if m.error.value.got < x then m.error.value.got == x - 1 && HeldTwice(streams, x - 1)
                      else m.error.value.got > x && NoneBetween(streams, x, m.error.value.got)))
  {
    YieldsConsecutive(streams);
    StopsFrom(streams, None);
    forall n | NumberHeld(streams, n)
      ensures MergeStreams(streams).events != [] && MergeStreams(streams).events[0].number <= n
    {
      LeastNumber(streams, n);
    }
  }
}
