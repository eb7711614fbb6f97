/**
 The durable log as a whole: a numbered run written through RawEventStorage, whatever its sources,
 hours and rotations, is what replay reads back.
 */
module RawLog {
  import opened Wrappers
  import opened Models
  import opened Lines
  import opened RawFiles
  import opened RawStorage
  import opened Merge
  import opened Replay

  /** One `write` call with what the clock, the hour and the random name decided for it. */
  datatype WriteOp = WriteOp(event: Event, hour: int, stem: string, timeUp: bool)
  {
    /** The segment this call would open, should it open one. */
    function Target(): SegmentId { SegmentId(Directory(hour, event.source, event.Stream()), stem) }
  }

  function EventsOf(ops: seq<WriteOp>): (events: seq<Event>)
    ensures |events| == |ops|
    ensures forall i :: 0 <= i < |ops| ==> events[i] == ops[i].event
  {
    if ops == [] then [] else EventsOf(ops[..|ops| - 1]) + [ops[|ops| - 1].event]
  }

  function WriteRun(c: LineCodec, rotateBytes: int, ops: seq<WriteOp>): (r: StoreOutcome)
    ensures r.error.None? ==> Handles(r.store)
  {
    if ops == [] then StoreOutcome(EMPTY, None)
    else
      var before := WriteRun(c, rotateBytes, ops[..|ops| - 1]);
      if before.error.Some? then before
      else
        var op := ops[|ops| - 1];
        WriteNext(c, rotateBytes, before.store, op.event, op.Target(), op.timeUp)
  }

  // The invariant of a store that has been written to without a failure.

  type Parts = map<SegmentId, seq<Event>>

  predicate IsOpen(st: Store, id: SegmentId) {
    DirectoryKey(id.dir) in st.segments && st.segments[DirectoryKey(id.dir)].id == id
  }

  function OpenSlot(c: LineCodec, part: seq<Event>): Slot {
    NO_FILES.(jsonlPartial := Some(Encoded(c, part)))
  }

  function FinishedSlot(c: LineCodec, part: seq<Event>): Slot
    requires part != []
  {
    var frame := Compress(Encoded(c, part));
    NO_FILES.(zst := Some(frame), manifest := Some(ManifestFor(frame, SummaryOf(part))))
  }

  /** A segment's file holds its part; while it is open, its counters describe that part. */
  ghost predicate FileMatches(c: LineCodec, st: Store, id: SegmentId, part: seq<Event>)
    requires id in st.tree && part != []
  {
    if IsOpen(st, id) then
      var seg := st.segments[DirectoryKey(id.dir)];
      && st.tree[id] == OpenSlot(c, part)
      && seg.Counters() == SummaryOf(part) && seg.bytes == |Encoded(c, part)|
    else st.tree[id] == FinishedSlot(c, part)
  }

  ghost predicate FilesMatch(c: LineCodec, st: Store, parts: Parts) {
    && Handles(st)
    && (forall id :: id in parts <==> id in st.tree)
    && (forall id :: id in parts ==> parts[id] != [] && FileMatches(c, st, id, parts[id]))
  }

  /** Each part increases, belongs to its directory's source and stream, and respects the rotation size. */
  ghost predicate PartsSound(c: LineCodec, rotateBytes: int, parts: Parts) {
    forall id :: id in parts ==>
      && Storable(c, parts[id]) && Increasing(parts[id])
      && (forall i :: 0 <= i < |parts[id]| ==> KeyOf(parts[id][i]) == DirectoryKey(id.dir) && parts[id][i].number >= 1)
      && (|Encoded(c, parts[id])| <= rotateBytes || |parts[id]| == 1)
  }

  /** Segments of one source and stream follow one another, an open one last. */
  ghost predicate PartsFollow(st: Store, parts: Parts) {
    forall a, b :: a in parts && b in parts && a != b && DirectoryKey(a.dir) == DirectoryKey(b.dir) ==>
      if IsOpen(st, b) then AllBefore(parts[a], parts[b])
      else if IsOpen(st, a) then AllBefore(parts[b], parts[a])
      else AllBefore(parts[a], parts[b]) || AllBefore(parts[b], parts[a])
  }

  /** The parts hold the events of the log and nothing else. */
  ghost predicate Covers(parts: Parts, log: seq<Event>) {
    forall e :: e in log <==> exists id :: id in parts && e in parts[id]
  }

  ghost predicate Recorded(c: LineCodec, rotateBytes: int, st: Store, parts: Parts, log: seq<Event>) {
    FilesMatch(c, st, parts) && PartsSound(c, rotateBytes, parts) && PartsFollow(st, parts) && Covers(parts, log)
  }

  /** `e` is the next event of a run: numbered past everything in the log, from 1 on. */
  ghost predicate Continues(log: seq<Event>, e: Event) {
    e.number >= 1 && (forall i :: 0 <= i < |log| ==> log[i].number < e.number)
  }

  // One call of `write` keeps the invariant.

  lemma {:induction false} EncodedSnoc(c: LineCodec, part: seq<Event>, e: Event)
    ensures Encoded(c, part + [e]) == Encoded(c, part) + Line(c, e)
  {
    EncodedAppend(c, part, [e]);
    assert [e][1..] == [];
  }

  lemma PartBelow(parts: Parts, log: seq<Event>, e: Event, id: SegmentId)
    requires Covers(parts, log) && Continues(log, e) && id in parts
    ensures AllBefore(parts[id], [e])
  {
    forall i | 0 <= i < |parts[id]| ensures parts[id][i].number < e.number {
      assert parts[id][i] in parts[id] && parts[id][i] in log;
    }
  }

  function PartAt(parts: Parts, id: SegmentId): seq<Event> {
    if id in parts then parts[id] else []
  }

  function Extended(parts: Parts, id: SegmentId, e: Event): Parts {
    parts[id := PartAt(parts, id) + [e]]
  }

  lemma CoversExtended(parts: Parts, log: seq<Event>, id: SegmentId, e: Event)
    requires Covers(parts, log)
    ensures Covers(Extended(parts, id, e), log + [e])
  {
    var parts' := Extended(parts, id, e);
    forall x ensures x in log + [e] <==> exists k :: k in parts' && x in parts'[k] {
      if x in log {
        var k :| k in parts && x in parts[k];
        assert x in parts'[k];
      }
      assert e in parts'[id];
      if k :| k in parts' && x in parts'[k] {
        assert x == e || (k in parts && x in parts[k]);
      }
    }
  }

  lemma {:induction false} SoundExtended(c: LineCodec, rotateBytes: int, parts: Parts, log: seq<Event>, id: SegmentId,
                                         e: Event)
    requires PartsSound(c, rotateBytes, parts) && Covers(parts, log) && Continues(log, e) && c.storable(e)
    requires DirectoryKey(id.dir) == KeyOf(e)
    requires id in parts && parts[id] != [] ==> |Encoded(c, parts[id])| + |Line(c, e)| <= rotateBytes
    ensures PartsSound(c, rotateBytes, Extended(parts, id, e))
  {
    var part := PartAt(parts, id);
    EncodedSnoc(c, part, e);
    if id in parts {
      PartBelow(parts, log, e, id);
    }
    assert Increasing(part + [e]);
  }

  /** Only the segment that grows, and it alone among the segments of its key, is open afterwards. */
  lemma FollowExtended(st: Store, next: Store, parts: Parts, log: seq<Event>, id: SegmentId, e: Event)
    requires PartsFollow(st, parts) && Covers(parts, log) && Continues(log, e)
    requires id in parts ==> IsOpen(st, id)
    requires forall x :: x in parts && x != id ==> (IsOpen(next, x) <==> IsOpen(st, x))
    requires IsOpen(next, id)
    requires forall x :: x in parts && x != id && DirectoryKey(x.dir) == DirectoryKey(id.dir) ==> !IsOpen(st, x)
    ensures PartsFollow(next, Extended(parts, id, e))
  {
    forall a | a in parts && a != id && DirectoryKey(a.dir) == DirectoryKey(id.dir)
      ensures AllBefore(parts[a], PartAt(parts, id) + [e])
    {
      PartBelow(parts, log, e, a);
    }
  }

  /** Files change at one segment only, and so does what is open. */
  lemma FilesFrame(c: LineCodec, st: Store, next: Store, parts: Parts, id: SegmentId, part: seq<Event>)
    requires FilesMatch(c, st, parts) && Handles(next)
    requires id in next.tree && part != [] && FileMatches(c, next, id, part)
    requires forall x :: x in next.tree <==> x in st.tree || x == id
    requires forall x :: x in st.tree && x != id ==> next.tree[x] == st.tree[x]
    requires forall key :: key != DirectoryKey(id.dir) ==>
      (key in next.segments <==> key in st.segments) &&
      (key in st.segments ==> next.segments[key] == st.segments[key])
    requires forall x :: x != id && DirectoryKey(x.dir) == DirectoryKey(id.dir) ==> !IsOpen(st, x) && !IsOpen(next, x)
    ensures FilesMatch(c, next, parts[id := part])
  {
    var parts' := parts[id := part];
    forall x | x in parts' ensures x in next.tree && parts'[x] != [] && FileMatches(c, next, x, parts'[x]) {
      if x != id {
        assert FileMatches(c, st, x, parts[x]);
      }
    }
  }

  /** A partial file that holds `part`, with counters that say so, finalises into the finished segment. */
  lemma FinalizesWhole(c: LineCodec, part: seq<Event>)
    requires Faithful(c) && Storable(c, part) && part != []
    ensures FinalizeSlot(c, OpenSlot(c, part), SummaryOf(part)) == Finalized(FinishedSlot(c, part), None)
  {
    ScannedWhole(c, part, false);
  }

  function FinishedStore(c: LineCodec, st: Store, key: Key, part: seq<Event>): Store
    requires key in st.segments && part != []
  {
    var id := st.segments[key].id;
    Store(st.tree[id := FinishedSlot(c, part)], st.segments - {key}, st.manifests + [id])
  }

  lemma FinishIs(c: LineCodec, st: Store, key: Key, part: seq<Event>)
    requires Faithful(c) && Storable(c, part) && part != []
    requires Handles(st) && key in st.segments && FileMatches(c, st, st.segments[key].id, part)
    ensures st.segments[key].count > 0
    ensures Finish(c, st, key) == StoreOutcome(FinishedStore(c, st, key, part), None)
  {
    assert IsOpen(st, st.segments[key].id);
    FinalizesWhole(c, part);
  }

  lemma FinishFiles(c: LineCodec, st: Store, parts: Parts, key: Key)
    requires Faithful(c) && FilesMatch(c, st, parts) && key in st.segments
    requires Storable(c, parts[st.segments[key].id])
    ensures st.segments[key].count > 0
    ensures Finish(c, st, key).error == None
    ensures FilesMatch(c, Finish(c, st, key).store, parts)
    ensures Finish(c, st, key).store.segments == st.segments - {key}
  {
    FinishIs(c, st, key, parts[st.segments[key].id]);
    FinishedFiles(c, st, parts, key);
  }

  lemma FinishedMatches(c: LineCodec, st: Store, key: Key, part: seq<Event>, x: SegmentId, held: seq<Event>)
    requires Handles(st) && key in st.segments && part != []
    requires x in st.tree && held != [] && FileMatches(c, st, x, held)
    requires x == st.segments[key].id ==> held == part
    ensures x in FinishedStore(c, st, key, part).tree && FileMatches(c, FinishedStore(c, st, key, part), x, held)
  {
  }

  lemma FinishedHandles(c: LineCodec, st: Store, key: Key, part: seq<Event>)
    requires Handles(st) && key in st.segments && part != []
    ensures Handles(FinishedStore(c, st, key, part))
  {
  }

  lemma FinishedFiles(c: LineCodec, st: Store, parts: Parts, key: Key)
    requires FilesMatch(c, st, parts) && key in st.segments
    ensures FilesMatch(c, FinishedStore(c, st, key, parts[st.segments[key].id]), parts)
  {
    var part := parts[st.segments[key].id];
    var next := FinishedStore(c, st, key, part);
    FinishedHandles(c, st, key, part);
    forall x | x in parts ensures x in next.tree && FileMatches(c, next, x, parts[x]) {
      FinishedMatches(c, st, key, part, x, parts[x]);
    }
  }

  /** Finishing the open segment of a key succeeds: the check of the compressed copy never fires. */
  lemma FinishKeeps(c: LineCodec, rotateBytes: int, st: Store, parts: Parts, log: seq<Event>, key: Key)
    requires Faithful(c) && Recorded(c, rotateBytes, st, parts, log) && key in st.segments
    ensures st.segments[key].count > 0
    ensures Finish(c, st, key).error == None
    ensures Recorded(c, rotateBytes, Finish(c, st, key).store, parts, log)
    ensures Finish(c, st, key).store.segments == st.segments - {key}
  {
    assert st.segments[key].id in parts;
    FinishFiles(c, st, parts, key);
    var next := Finish(c, st, key).store;
    assert forall id :: IsOpen(next, id) ==> IsOpen(st, id);
    assert forall a, b :: IsOpen(st, a) && IsOpen(st, b) && DirectoryKey(a.dir) == DirectoryKey(b.dir) ==> a == b;
  }

  lemma ExtendMatches(c: LineCodec, st: Store, e: Event, part: seq<Event>)
    requires Handles(st) && KeyOf(e) in st.segments && part != [] && part[0].number != 0
    requires FileMatches(c, st, st.segments[KeyOf(e)].id, part)
    ensures var id := st.segments[KeyOf(e)].id;
            id in Append(c, st, e).tree && FileMatches(c, Append(c, st, e), id, part + [e])
  {
    EncodedSnoc(c, part, e);
    assert IsOpen(st, st.segments[KeyOf(e)].id);
  }

  lemma ExtendFiles(c: LineCodec, st: Store, parts: Parts, e: Event)
    requires FilesMatch(c, st, parts) && KeyOf(e) in st.segments
    requires parts[st.segments[KeyOf(e)].id] != [] && parts[st.segments[KeyOf(e)].id][0].number != 0
    ensures FilesMatch(c, Append(c, st, e), Extended(parts, st.segments[KeyOf(e)].id, e))
  {
    var id := st.segments[KeyOf(e)].id;
    ExtendMatches(c, st, e, parts[id]);
    FilesFrame(c, st, Append(c, st, e), parts, id, parts[id] + [e]);
  }

  lemma StartMatches(c: LineCodec, st: Store, e: Event, id: SegmentId)
    requires Handles(st) && DirectoryKey(id.dir) == KeyOf(e) && KeyOf(e) !in st.segments && id !in st.tree
    ensures CanOpen(st, id)
    ensures var next := Append(c, Open(st, id), e); id in next.tree && FileMatches(c, next, id, [e])
  {
    EncodedSnoc(c, [], e);
    assert [] + [e] == [e];
  }

  lemma StartFiles(c: LineCodec, st: Store, parts: Parts, e: Event, id: SegmentId)
    requires FilesMatch(c, st, parts)
    requires DirectoryKey(id.dir) == KeyOf(e) && KeyOf(e) !in st.segments && id !in st.tree
    ensures CanOpen(st, id) && FilesMatch(c, Append(c, Open(st, id), e), Extended(parts, id, e))
  {
    StartMatches(c, st, e, id);
    assert PartAt(parts, id) + [e] == [e];
    FilesFrame(c, st, Append(c, Open(st, id), e), parts, id, [e]);
  }

  lemma StartFollows(c: LineCodec, st: Store, parts: Parts, log: seq<Event>, e: Event, id: SegmentId)
    requires Handles(st) && PartsFollow(st, parts) && Covers(parts, log) && Continues(log, e)
    requires DirectoryKey(id.dir) == KeyOf(e) && KeyOf(e) !in st.segments && id !in st.tree && id !in parts
    requires CanOpen(st, id)
    ensures PartsFollow(Append(c, Open(st, id), e), Extended(parts, id, e))
  {
    FollowExtended(st, Append(c, Open(st, id), e), parts, log, id, e);
  }

  /** The first event of a fresh segment. */
  lemma StartKeeps(c: LineCodec, rotateBytes: int, st: Store, parts: Parts, log: seq<Event>, e: Event, id: SegmentId)
    requires Recorded(c, rotateBytes, st, parts, log) && Continues(log, e) && c.storable(e)
    requires DirectoryKey(id.dir) == KeyOf(e) && KeyOf(e) !in st.segments && id !in st.tree
    ensures CanOpen(st, id)
    ensures Recorded(c, rotateBytes, Append(c, Open(st, id), e), Extended(parts, id, e), log + [e])
  {
    StartFiles(c, st, parts, e, id);
    SoundExtended(c, rotateBytes, parts, log, id, e);
    StartFollows(c, st, parts, log, e, id);
    CoversExtended(parts, log, id, e);
  }

  lemma ExtendFollows(c: LineCodec, st: Store, parts: Parts, log: seq<Event>, e: Event)
    requires Handles(st) && PartsFollow(st, parts) && Covers(parts, log) && Continues(log, e)
    requires KeyOf(e) in st.segments && st.segments[KeyOf(e)].id in parts
    requires DirectoryKey(st.segments[KeyOf(e)].id.dir) == KeyOf(e)
    ensures PartsFollow(Append(c, st, e), Extended(parts, st.segments[KeyOf(e)].id, e))
  {
    FollowExtended(st, Append(c, st, e), parts, log, st.segments[KeyOf(e)].id, e);
  }

  lemma {:induction false} OpenCounters(c: LineCodec, st: Store, parts: Parts, key: Key)
    requires FilesMatch(c, st, parts) && key in st.segments
    ensures var id := st.segments[key].id;
            && id in parts && parts[id] != [] && IsOpen(st, id) && DirectoryKey(id.dir) == key
            && st.segments[key].bytes == |Encoded(c, parts[id])|
  {
    assert FileMatches(c, st, st.segments[key].id, parts[st.segments[key].id]);
  }

  /** A further event of the open segment. */
  lemma ExtendKeeps(c: LineCodec, rotateBytes: int, st: Store, parts: Parts, log: seq<Event>, e: Event)
    requires Recorded(c, rotateBytes, st, parts, log) && Continues(log, e) && c.storable(e)
    requires KeyOf(e) in st.segments
    requires st.segments[KeyOf(e)].bytes + |Line(c, e)| <= rotateBytes
    ensures var id := st.segments[KeyOf(e)].id;
            Recorded(c, rotateBytes, Append(c, st, e), Extended(parts, id, e), log + [e])
  {
    var id := st.segments[KeyOf(e)].id;
    OpenCounters(c, st, parts, KeyOf(e));
    ExtendFiles(c, st, parts, e);
    SoundExtended(c, rotateBytes, parts, log, id, e);
    ExtendFollows(c, st, parts, log, e);
    CoversExtended(parts, log, id, e);
  }

  /** One `write` of the next event of the run succeeds and keeps the invariant. */
  lemma WriteKeeps(c: LineCodec, rotateBytes: int, st: Store, parts: Parts, log: seq<Event>, op: WriteOp)
    returns (parts': Parts)
    requires Faithful(c) && Recorded(c, rotateBytes, st, parts, log) && Continues(log, op.event)
    requires c.storable(op.event)
    requires op.Target() !in parts
    ensures var r := WriteNext(c, rotateBytes, st, op.event, op.Target(), op.timeUp);
            r.error == None && Recorded(c, rotateBytes, r.store, parts', log + [op.event])
    ensures forall id :: id in parts' ==> id in parts || id == op.Target()
  {
    var e, key := op.event, KeyOf(op.event);
    if key !in st.segments {
      StartKeeps(c, rotateBytes, st, parts, log, e, op.Target());
      parts' := Extended(parts, op.Target(), e);
    } else {
      var id := st.segments[key].id;
      assert id in parts && IsOpen(st, id) && FileMatches(c, st, id, parts[id]);
      if NeedsRotation(st.segments[key], |Line(c, e)|, rotateBytes, op.timeUp) {
        FinishKeeps(c, rotateBytes, st, parts, log, key);
        StartKeeps(c, rotateBytes, Finish(c, st, key).store, parts, log, e, op.Target());
        parts' := Extended(parts, op.Target(), e);
      } else {
        ExtendKeeps(c, rotateBytes, st, parts, log, e);
        parts' := Extended(parts, id, e);
      }
    }
  }

  /** A run to be written: numbered consecutively from 1 or later, each call with a name of its own. */
  ghost predicate ValidRun(c: LineCodec, ops: seq<WriteOp>) {
    && Consecutive(EventsOf(ops)) && Storable(c, EventsOf(ops))
    && (ops != [] ==> ops[0].event.number >= 1)
    && (forall i, j :: 0 <= i < j < |ops| ==> ops[i].Target() != ops[j].Target())
  }

  lemma {:induction false} FrontValid(c: LineCodec, ops: seq<WriteOp>)
    requires ValidRun(c, ops) && ops != []
    ensures ValidRun(c, ops[..|ops| - 1])
    ensures Continues(EventsOf(ops[..|ops| - 1]), ops[|ops| - 1].event) && c.storable(ops[|ops| - 1].event)
  {
    var front, op, events := ops[..|ops| - 1], ops[|ops| - 1], EventsOf(ops);
    assert forall i :: 0 <= i < |front| ==> EventsOf(front)[i] == events[i];
    assert events[|front|] == op.event;
    forall i | 0 <= i < |front| ensures EventsOf(front)[i].number < op.event.number {
      assert events[i].number == events[0].number + i && events[|front|].number == events[0].number + |front|;
    }
    forall i | 0 <= i < |front| ensures EventsOf(front)[i].number == EventsOf(front)[0].number + i {
      assert events[i].number == events[0].number + i;
    }
  }

  /** Every write of a run succeeds, whatever the sources, hours and rotation decisions. */
  lemma {:induction false} RunKeeps(c: LineCodec, rotateBytes: int, ops: seq<WriteOp>) returns (parts: Parts)
    requires Faithful(c) && ValidRun(c, ops)
    ensures WriteRun(c, rotateBytes, ops).error == None
    ensures Recorded(c, rotateBytes, WriteRun(c, rotateBytes, ops).store, parts, EventsOf(ops))
    ensures forall id :: id in parts ==> exists i :: 0 <= i < |ops| && ops[i].Target() == id
  {
    if ops == [] {
      parts := map[];
    } else {
      var front, op := ops[..|ops| - 1], ops[|ops| - 1];
      FrontValid(c, ops);
      var before := RunKeeps(c, rotateBytes, front);
      parts := WriteKeeps(c, rotateBytes, WriteRun(c, rotateBytes, front).store, before, EventsOf(front), op);
      assert forall i :: 0 <= i < |front| ==> ops[i] == front[i];
    }
  }

  // Closing, and reading everything back.

  lemma {:induction false} CloseKeeps(c: LineCodec, rotateBytes: int, st: Store, parts: Parts, log: seq<Event>,
                                      order: seq<Key>)
    requires Faithful(c) && Recorded(c, rotateBytes, st, parts, log) && ListsSegments(st, order)
    ensures CloseAll(c, st, order).error == None
    ensures Recorded(c, rotateBytes, CloseAll(c, st, order).store, parts, log)
    ensures CloseAll(c, st, order).store.segments == map[]
    decreases |order|
  {
    if order == [] {
    } else {
      FinishKeeps(c, rotateBytes, st, parts, log, order[0]);
      CloseAllStep(c, st, order, 0);
      assert order[0..] == order;
      CloseKeeps(c, rotateBytes, Finish(c, st, order[0]).store, parts, log, order[1..]);
    }
  }

  /** No event is in two parts: they differ in source or stream, or follow one another in number. */
  lemma PartsDisjoint(c: LineCodec, rotateBytes: int, st: Store, parts: Parts, a: SegmentId, b: SegmentId, e: Event)
    requires PartsSound(c, rotateBytes, parts) && PartsFollow(st, parts)
    requires a in parts && b in parts && a != b && e in parts[a]
    ensures e !in parts[b]
  {
    var i :| 0 <= i < |parts[a]| && parts[a][i] == e;
    forall j | 0 <= j < |parts[b]| ensures parts[b][j] != e {
      if DirectoryKey(a.dir) == DirectoryKey(b.dir) {
        assert AllBefore(parts[a], parts[b]) || AllBefore(parts[b], parts[a]);
      } else {
        assert KeyOf(parts[a][i]) != KeyOf(parts[b][j]);
      }
    }
  }

  lemma ClosedIsSettled(c: LineCodec, st: Store, parts: Parts, id: SegmentId)
    requires FilesMatch(c, st, parts) && st.segments == map[] && id in parts
    ensures id in st.tree && st.tree[id].manifest.Some?
    ensures Settled(c, st.tree[id], parts[id]) && Readable(c, st.tree[id], parts[id])
  {
    assert FileMatches(c, st, id, parts[id]);
  }

  lemma ClosedInOrder(c: LineCodec, st: Store, parts: Parts, a: SegmentId, b: SegmentId)
    requires Handles(st) && PartsFollow(st, parts) && st.segments == map[]
    requires a in parts && b in parts && a != b && a.dir == b.dir
    ensures AllBefore(parts[a], parts[b]) || AllBefore(parts[b], parts[a])
  {
  }

  /** With nothing open, the tree is an archive of the parts. */
  lemma ClosedIsArchive(c: LineCodec, rotateBytes: int, st: Store, parts: Parts, log: seq<Event>,
                        listing: seq<SegmentId>)
    requires Recorded(c, rotateBytes, st, parts, log) && st.segments == map[] && ListsManifests(st.tree, listing)
    ensures Archive(c, st.tree, listing, parts)
    ensures forall id :: id in listing <==> id in parts
  {
    forall id | id in parts ensures id in listing && Readable(c, st.tree[id], parts[id]) {
      ClosedIsSettled(c, st, parts, id);
    }
    forall a, b | a in listing && b in listing && a != b && a.dir == b.dir
      ensures AllBefore(parts[a], parts[b]) || AllBefore(parts[b], parts[a])
    {
      ClosedInOrder(c, st, parts, a, b);
    }
    forall a, b, e | a in listing && b in listing && a != b && e in parts[a] ensures e !in parts[b] {
      PartsDisjoint(c, rotateBytes, st, parts, a, b, e);
    }
  }

  /**
   The round trip of the durable log. For any run numbered n, n+1, ... with n >= 1, whatever its
   sources, streams, hours and rotations: every write and the close succeed (the check of a
   compressed segment never fires), and reading the directory, in whatever order it is listed, gives
   back exactly that run with no integrity error.
   */
  lemma {:induction false} LogRoundTrip(c: LineCodec, rotateBytes: int, ops: seq<WriteOp>, order: seq<Key>,
                                        listing: seq<SegmentId>)
    requires Faithful(c) && ValidRun(c, ops)
    requires WriteRun(c, rotateBytes, ops).error == None ==> ListsSegments(WriteRun(c, rotateBytes, ops).store, order)
    requires WriteRun(c, rotateBytes, ops).error == None ==>
             ListsManifests(CloseAll(c, WriteRun(c, rotateBytes, ops).store, order).store.tree, listing)
    ensures var written := WriteRun(c, rotateBytes, ops);
            && written.error == None
            && var closed := CloseAll(c, written.store, order);
               closed.error == None && ReadRawEvents(c, closed.store.tree, listing) == Stream(EventsOf(ops), None)
  {
    var parts := RunKeeps(c, rotateBytes, ops);
    var st := WriteRun(c, rotateBytes, ops).store;
    CloseKeeps(c, rotateBytes, st, parts, EventsOf(ops), order);
    var closed := CloseAll(c, st, order).store;
    ClosedIsArchive(c, rotateBytes, closed, parts, EventsOf(ops), listing);
    ArchiveReadsBack(c, closed.tree, listing, parts, EventsOf(ops));
  }

  /** Every finalised segment's uncompressed size is within the rotation size, or it holds one event. */
  lemma {:induction false} SegmentSizes(c: LineCodec, rotateBytes: int, ops: seq<WriteOp>)
    requires Faithful(c) && ValidRun(c, ops)
    ensures var tree := WriteRun(c, rotateBytes, ops).store.tree;
            forall id :: id in tree && tree[id].manifest.Some? ==>
              && tree[id].zst.Some? && tree[id].manifest.value.Manifest?
              && (|tree[id].zst.value.bytes| <= rotateBytes || tree[id].manifest.value.eventCount == 1)
  {
    var parts := RunKeeps(c, rotateBytes, ops);
    var st := WriteRun(c, rotateBytes, ops).store;
    forall id | id in st.tree && st.tree[id].manifest.Some?
      ensures st.tree[id] == FinishedSlot(c, parts[id])
    {
      assert FileMatches(c, st, id, parts[id]);
    }
  }

  // Where numbering may start: zero is mistaken for a missing first number.

  function RecordedFirst(events: seq<Event>): Option<int> {
    if events == [] then None
    else FirstOr(RecordedFirst(events[..|events| - 1]), events[|events| - 1].number)
  }

  lemma {:induction false} FirstCounterRight(events: seq<Event>)
    requires events != []
    ensures RecordedFirst(events) == Some(events[0].number) <==>
            events[0].number != 0 || forall i :: 0 <= i < |events| ==> events[i].number == 0
    ensures RecordedFirst(events).Some?
    ensures RecordedFirst(events).value == 0 <==> forall i :: 0 <= i < |events| ==> events[i].number == 0
    ensures events[0].number != 0 ==> RecordedFirst(events) == Some(events[0].number)
  {
    if |events| == 1 {
      assert events[..0] == [];
    } else {
      FirstCounterRight(events[..|events| - 1]);
    }
  }

  /**
   With the counters `write` keeps, finalising a segment passes the check of the compressed copy
   exactly when the segment's first event is not numbered 0, or all of its events are.
   */
  lemma {:induction false} FirstNumberZero(c: LineCodec, events: seq<Event>)
    requires Faithful(c) && Storable(c, events) && events != []
    ensures var counters := Summary(|events|, RecordedFirst(events), Some(events[|events| - 1].number));
            FinalizeSlot(c, OpenSlot(c, events), counters).error == None <==>
            events[0].number != 0 || forall i :: 0 <= i < |events| ==> events[i].number == 0
  {
    FirstCounterRight(events);
    ScannedWhole(c, events, false);
  }
}
