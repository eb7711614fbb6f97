/** The append-only raw log: segments, rotation and finalisation (market_data/storage.py:114-252). */
module RawStorage {
  import opened Wrappers
  import opened Models
  import opened Lines
  import opened RawFiles

  type Key = (EventSource, EventStream)

  datatype StorageError = CannotOpen | CannotCompress | MetadataMismatch

  datatype Segment = Segment(id: SegmentId, count: nat, first: Option<int>, last: Option<int>, bytes: nat)
  {
    function Counters(): Summary { Summary(count, first, last) }
  }

  function KeyOf(e: Event): Key { (e.source, e.Stream()) }

  function DirectoryKey(d: Directory): Key { (d.source, d.stream) }

  // Finalising one segment.

  /** What is on disk after each file-system step of `_finalize`. */
  datatype Stage =
    | Appending | Renamed | Compressing(torn: Frame) | Compressed | Published
    | WritingManifest | ManifestWritten | ManifestPublished | Cleaned

  function AtStage(slot: Slot, b: Bytes, doc: Document, stage: Stage): Slot {
    var renamed := slot.(jsonlPartial := None, jsonl := Some(b));
    var published := renamed.(zst := Some(Compress(b)), zstPartial := None);
    match stage
    case Appending => slot
    case Renamed => renamed
    case Compressing(torn) => renamed.(zstPartial := Some(torn))
    case Compressed => renamed.(zstPartial := Some(Compress(b)))
    case Published => published
    case WritingManifest => published.(manifestPartial := Some(Garbled))
    case ManifestWritten => published.(manifestPartial := Some(doc))
    case ManifestPublished => published.(manifestPartial := None, manifest := Some(doc))
    case Cleaned => published.(manifestPartial := None, manifest := Some(doc), jsonl := None)
  }

  datatype Finalized = Finalized(slot: Slot, error: Option<StorageError>)

  /** `_finalize` of a segment whose counters say `summary`; a failure leaves the files of that stage. */
  function FinalizeSlot(c: LineCodec, slot: Slot, summary: Summary): (r: Finalized)
    requires slot.jsonlPartial.Some? && summary.count > 0
    ensures r.error.None? ==> summary.first.Some? && summary.last.Some?
  {
    var b := slot.jsonlPartial.value;
    if slot.zstPartial.Some? then
      Finalized(AtStage(slot, b, Garbled, Renamed), Some(CannotCompress))
    else if Scanned(c, b, false) != Some(summary) then
      Finalized(AtStage(slot, b, Garbled, Compressed), Some(MetadataMismatch))
    else
      Finalized(AtStage(slot, b, ManifestFor(Compress(b), summary), Cleaned), None)
  }

  // The store as a value.

  datatype Store = Store(tree: Tree, segments: map<Key, Segment>, manifests: seq<SegmentId>)

  const EMPTY := Store(map[], map[], [])

  /** Every open segment has its partial file, in a directory of its own source and stream. */
  ghost predicate Handles(st: Store) {
    forall key :: key in st.segments ==>
      var id := st.segments[key].id;
      DirectoryKey(id.dir) == key && id in st.tree && st.tree[id].jsonlPartial.Some?
  }

  function SlotAt(tree: Tree, id: SegmentId): Slot {
    if id in tree then tree[id] else NO_FILES
  }

  predicate CanOpen(st: Store, id: SegmentId) {
    SlotAt(st.tree, id).jsonlPartial.None?
  }

  function Open(st: Store, id: SegmentId): (r: Store)
    requires Handles(st) && CanOpen(st, id)
    ensures Handles(r)
  {
    Store(st.tree[id := SlotAt(st.tree, id).(jsonlPartial := Some([]))],
          st.segments[DirectoryKey(id.dir) := Segment(id, 0, None, None, 0)],
          st.manifests)
  }

  predicate NeedsRotation(seg: Segment, size: nat, rotateBytes: int, timeUp: bool) {
    seg.count != 0 && (seg.bytes + size > rotateBytes || timeUp)
  }

  /** Python's `first or number`: zero counts as missing. */
  function FirstOr(first: Option<int>, number: int): Option<int> {
    if first.None? || first.value == 0 then Some(number) else first
  }

  function Append(c: LineCodec, st: Store, e: Event): (appended: Store)
    requires Handles(st) && KeyOf(e) in st.segments
    ensures Handles(appended)
  {
    var seg := st.segments[KeyOf(e)];
    var slot := st.tree[seg.id];
    var line := Line(c, e);
    Store(st.tree[seg.id := slot.(jsonlPartial := Some(slot.jsonlPartial.value + line))],
          st.segments[KeyOf(e) := Segment(seg.id, seg.count + 1, FirstOr(seg.first, e.number),
                                          Some(e.number), seg.bytes + |line|)],
          st.manifests)
  }

  datatype StoreOutcome = StoreOutcome(store: Store, error: Option<StorageError>)

  /** Finalise the open segment of `key` and forget it. */
  function Finish(c: LineCodec, st: Store, key: Key): (r: StoreOutcome)
    requires Handles(st) && key in st.segments && st.segments[key].count > 0
    ensures r.error.None? ==> Handles(r.store)
  {
    var seg := st.segments[key];
    var done := FinalizeSlot(c, st.tree[seg.id], seg.Counters());
    var tree := st.tree[seg.id := done.slot];
    if done.error.Some? then StoreOutcome(st.(tree := tree), done.error)
    else StoreOutcome(Store(tree, st.segments - {key}, st.manifests + [seg.id]), None)
  }

  /**
   `write`: open on first use, rotate when the segment is full or old, append. A rotation that cannot open
   the next segment leaves the finalised one in the table.
   */
  function WriteNext(c: LineCodec, rotateBytes: int, st: Store, e: Event, id: SegmentId, timeUp: bool):
    (r: StoreOutcome)
    requires Handles(st) && DirectoryKey(id.dir) == KeyOf(e)
    ensures r.error.None? ==> Handles(r.store)
  {
    var key := KeyOf(e);
    if key !in st.segments then
      if CanOpen(st, id) then StoreOutcome(Append(c, Open(st, id), e), None) else StoreOutcome(st, Some(CannotOpen))
    else if NeedsRotation(st.segments[key], |Line(c, e)|, rotateBytes, timeUp) then
      var finished := Finish(c, st, key);
      if finished.error.Some? then finished
      else if CanOpen(finished.store, id) then StoreOutcome(Append(c, Open(finished.store, id), e), None)
      else StoreOutcome(finished.store.(segments := st.segments), Some(CannotOpen))
    else StoreOutcome(Append(c, st, e), None)
  }

  /** A segment is due for rotation when it holds an event and the line would overfill it, or its time is up. */
  predicate Due(st: Store, key: Key, size: nat, rotateBytes: int, timeUp: bool) {
    && key in st.segments && st.segments[key].count > 0
    && (st.segments[key].bytes + size > rotateBytes || timeUp)
  }

  /**
   What a write that succeeds does: it finalises exactly a segment that is due, and then, or where none is open,
   the line is the whole of a new segment's file; otherwise it is added at the end of the open one's. The segment
   written to is the open one of the event's source and stream.
   */
  lemma WriteMeans(c: LineCodec, rotateBytes: int, st: Store, e: Event, id: SegmentId, timeUp: bool)
    requires Handles(st) && DirectoryKey(id.dir) == KeyOf(e) && SlotAt(st.tree, id) == NO_FILES
    requires WriteNext(c, rotateBytes, st, e, id, timeUp).error == None
    ensures var t, key, due := WriteNext(c, rotateBytes, st, e, id, timeUp).store, KeyOf(e),
                               Due(st, KeyOf(e), |Line(c, e)|, rotateBytes, timeUp);
            && t.manifests == (if due then st.manifests + [st.segments[key].id] else st.manifests)
            && key in t.segments && t.segments[key].id in t.tree
            && (if due || key !in st.segments then
                  t.segments[key].id == id && t.tree[id] == NO_FILES.(jsonlPartial := Some(Line(c, e)))
                else
                  && t.segments[key].id == st.segments[key].id && t.segments[key].id in st.tree
                  && t.tree[t.segments[key].id].jsonlPartial.Some? && st.tree[t.segments[key].id].jsonlPartial.Some?
                  && t.tree[t.segments[key].id].jsonlPartial.value ==
                       st.tree[t.segments[key].id].jsonlPartial.value + Line(c, e))
  {
    assert [] + Line(c, e) == Line(c, e);
  }

  /** What `close` does with one open segment: finalise it, or drop its file when nothing was written. */
  function CloseOne(c: LineCodec, st: Store, key: Key): (r: StoreOutcome)
    requires Handles(st) && key in st.segments
    ensures r.error.None? ==> Handles(r.store) && r.store.segments == st.segments - {key}
  {
    var seg := st.segments[key];
    if seg.count > 0 then Finish(c, st, key)
    else StoreOutcome(Store(st.tree[seg.id := st.tree[seg.id].(jsonlPartial := None)],
                       st.segments - {key}, st.manifests), None)
  }

  /** The open segments, each once, in whatever order the dictionary holds them. */
  ghost predicate ListsSegments(st: Store, order: seq<Key>) {
    && (forall i, j :: 0 <= i < j < |order| ==> order[i] != order[j])
    && (forall key :: key in order <==> key in st.segments)
  }

  /** `close`. */
  function CloseAll(c: LineCodec, st: Store, order: seq<Key>): StoreOutcome
    requires Handles(st) && ListsSegments(st, order)
    decreases |order|
  {
    if order == [] then StoreOutcome(st, None)
    else
      var closed := CloseOne(c, st, order[0]);
      if closed.error.Some? then closed
      else
        assert order == [order[0]] + order[1..];
        CloseAll(c, closed.store, order[1..])
  }

  lemma RestListed(st: Store, closed: Store, order: seq<Key>)
    requires order != [] && ListsSegments(st, order) && closed.segments == st.segments - {order[0]}
    ensures order[0] in st.segments && ListsSegments(closed, order[1..])
  {
    assert order == [order[0]] + order[1..];
  }

  lemma {:induction false} CloseAllStep(c: LineCodec, st: Store, order: seq<Key>, k: nat)
    requires k < |order| && Handles(st) && ListsSegments(st, order[k..])
    ensures order[k] in st.segments
    ensures var closed := CloseOne(c, st, order[k]);
            if closed.error.Some? then CloseAll(c, st, order[k..]) == closed
            else && ListsSegments(closed.store, order[k + 1..])
                 && CloseAll(c, st, order[k..]) == CloseAll(c, closed.store, order[k + 1..])
  {
    var rest := order[k..];
    assert rest[0] == order[k] && rest[1..] == order[k + 1..];
    assert rest[0] in rest;
    var closed := CloseOne(c, st, rest[0]);
    if closed.error.None? {
      RestListed(st, closed.store, rest);
    }
  }

  /** What closing makes of one open segment: finished if it held an event, else without its empty file. */
  predicate IsClosed(st: Store, t: Store, key: Key)
    requires key in st.segments && st.segments[key].id in st.tree
  {
    var id := st.segments[key].id;
    && id in t.tree && t.tree[id].jsonlPartial.None?
    && (if st.segments[key].count > 0 then t.tree[id].manifest.Some? && t.tree[id].zst.Some? && t.tree[id].jsonl.None?
        else t.tree[id] == st.tree[id].(jsonlPartial := None))
  }

  ghost predicate AllClosed(st: Store, t: Store)
    requires Handles(st)
  {
    forall key :: key in st.segments ==> IsClosed(st, t, key)
  }

  /** The files of segments that are not open stay as they are. */
  ghost predicate OthersKept(st: Store, t: Store) {
    forall id :: id in st.tree
                 && (DirectoryKey(id.dir) in st.segments ==> st.segments[DirectoryKey(id.dir)].id != id) ==>
      id in t.tree && t.tree[id] == st.tree[id]
  }

  lemma CloseOneMeans(c: LineCodec, st: Store, key: Key)
    requires Handles(st) && key in st.segments && CloseOne(c, st, key).error.None?
    ensures IsClosed(st, CloseOne(c, st, key).store, key)
    ensures forall id :: id in st.tree && id != st.segments[key].id ==>
              id in CloseOne(c, st, key).store.tree && CloseOne(c, st, key).store.tree[id] == st.tree[id]
  {
  }

  lemma ClosesThrough(st: Store, closed: Store, t: Store, key: Key)
    requires Handles(st) && Handles(closed) && key in st.segments && closed.segments == st.segments - {key}
    requires IsClosed(st, closed, key) && AllClosed(closed, t) && OthersKept(closed, t)
    requires forall id :: id in st.tree && id != st.segments[key].id ==>
               id in closed.tree && closed.tree[id] == st.tree[id]
    ensures AllClosed(st, t) && OthersKept(st, t)
  {
    forall k | k in st.segments ensures IsClosed(st, t, k) {
      if k != key {
        assert IsClosed(closed, t, k);
      }
    }
  }

  /** A close without an error leaves nothing open: every open segment is closed, and no other file is touched. */
  lemma {:induction false} CloseMeans(c: LineCodec, st: Store, order: seq<Key>)
    requires Handles(st) && ListsSegments(st, order) && CloseAll(c, st, order).error.None?
    ensures var t := CloseAll(c, st, order).store; t.segments == map[] && AllClosed(st, t) && OthersKept(st, t)
    decreases |order|
  {
    if order == [] {
      assert st.segments.Keys == {};
    } else {
      assert order[0] in order;
      var closed := CloseOne(c, st, order[0]).store;
      CloseOneMeans(c, st, order[0]);
      RestListed(st, closed, order);
      CloseMeans(c, closed, order[1..]);
      ClosesThrough(st, closed, CloseAll(c, st, order).store, order[0]);
    }
  }

  class RawEventStorage {
    const codec: LineCodec
    const rotateBytes: int
    var tree: Tree
    var segments: map<Key, Segment>
    var manifests: seq<SegmentId>

    constructor (codec: LineCodec, rotateBytes: int)
      ensures this.codec == codec && this.rotateBytes == rotateBytes
      ensures Valid() && State() == EMPTY
    {
      this.codec, this.rotateBytes := codec, rotateBytes;
      tree, segments, manifests := map[], map[], [];
    }

    ghost function State(): Store
      reads this
    {
      Store(tree, segments, manifests)
    }

    ghost predicate Valid()
      reads this
    {
      Handles(State())
    }

    /** `_open`: create the partial file exclusively. */
    method CreatePartial(id: SegmentId) returns (error: Option<StorageError>)
      modifies this`tree
      ensures var slot := SlotAt(old(tree), id);
              && error == (if slot.jsonlPartial.None? then None else Some(CannotOpen))
              && tree == if error.None? then old(tree)[id := slot.(jsonlPartial := Some([]))] else old(tree)
    {
      var slot := SlotAt(tree, id);
      if slot.jsonlPartial.Some? {
        return Some(CannotOpen);
      }
      tree := tree[id := slot.(jsonlPartial := Some([]))];
      return None;
    }

    /** Open a segment and enter it in the table, in place of any other of its source and stream. */
    method OpenSegment(id: SegmentId) returns (error: Option<StorageError>)
      modifies this
      ensures var slot := SlotAt(old(tree), id);
              && error == (if slot.jsonlPartial.None? then None else Some(CannotOpen))
              && State() == if error.Some? then old(State())
                            else Store(old(tree)[id := slot.(jsonlPartial := Some([]))],
                                       old(segments)[DirectoryKey(id.dir) := Segment(id, 0, None, None, 0)],
                                       old(manifests))
    {
      error := CreatePartial(id);
      if error.None? {
        segments := segments[DirectoryKey(id.dir) := Segment(id, 0, None, None, 0)];
      }
    }

    /** The first half of `_finalize`: rename, compress exclusively, validate the compressed copy. */
    method CompressSegment(seg: Segment) returns (error: Option<StorageError>, ghost trace: seq<Slot>)
      requires seg.id in tree && tree[seg.id].jsonlPartial.Some? && seg.count > 0
      modifies this`tree
      ensures seg.id in tree && tree == old(tree)[seg.id := tree[seg.id]]
      ensures var slot, b := old(tree[seg.id]), old(tree[seg.id].jsonlPartial.value);
              && (error.Some? ==> FinalizeSlot(codec, slot, seg.Counters()) == Finalized(tree[seg.id], error))
              && (error.None? ==> FinalizeSlot(codec, slot, seg.Counters()).error.None?
                                  && tree[seg.id] == AtStage(slot, b, Garbled, Compressed)
                                  && forall doc :: trace == Trace(slot, b, doc)[..4])
    {
      ghost var was, s0 := tree, tree[seg.id];
      var slot := tree[seg.id];
      var b := slot.jsonlPartial.value;
      slot := slot.(jsonlPartial := None, jsonl := Some(b));
      tree := tree[seg.id := slot];
      ghost var s1 := slot;
      if slot.zstPartial.Some? {
        return Some(CannotCompress), [];
      }
      slot := slot.(zstPartial := Some(Frame([], CutShort)));
      tree := tree[seg.id := slot];
      ghost var s2 := slot;
      slot := slot.(zstPartial := Some(Compress(b)));
      tree := tree[seg.id := slot];
      assert tree == was[seg.id := slot];
      var scanned := ScanJsonl(codec, slot.zstPartial.value.bytes, false);
      if scanned != Some(seg.Counters()) {
        return Some(MetadataMismatch), [];
      }
      return None, [s0, s1, s2, slot];
    }

    /** The second half of `_finalize`: move the copy into place, write the manifest, drop the JSONL. */
    method PublishSegment(seg: Segment, ghost s0: Slot) returns (ghost trace: seq<Slot>)
      requires seg.id in tree && s0.jsonlPartial.Some? && seg.count > 0
      requires seg.first.Some? && seg.last.Some?
      requires tree[seg.id] == AtStage(s0, s0.jsonlPartial.value, Garbled, Compressed)
      modifies this`tree
      ensures var b := s0.jsonlPartial.value;
              var doc := ManifestFor(Compress(b), seg.Counters());
              && tree == old(tree)[seg.id := AtStage(s0, b, doc, Cleaned)]
              && trace == Trace(s0, b, doc)[4..]
    {
      ghost var was := tree;
      var slot := tree[seg.id];
      var doc := ManifestFor(slot.zstPartial.value, seg.Counters());
      slot := slot.(zst := slot.zstPartial, zstPartial := None);
      tree := tree[seg.id := slot];
      ghost var s4 := slot;
      slot := slot.(manifestPartial := Some(Garbled));
      tree := tree[seg.id := slot];
      ghost var s5 := slot;
      slot := slot.(manifestPartial := Some(doc));
      tree := tree[seg.id := slot];
      assert tree == was[seg.id := slot];
      ghost var s6 := slot;
      slot := slot.(manifest := slot.manifestPartial, manifestPartial := None);
      tree := tree[seg.id := slot];
      ghost var s7 := slot;
      slot := slot.(jsonl := None);
      tree := tree[seg.id := slot];
      assert tree == was[seg.id := slot];
      return [s4, s5, s6, s7, slot];
    }

    /** `_finalize`, one file-system step at a time; `trace` is the segment's files after each step. */
    method FinalizeSegment(seg: Segment) returns (error: Option<StorageError>, ghost trace: seq<Slot>)
      requires seg.id in tree && tree[seg.id].jsonlPartial.Some? && seg.count > 0
      modifies this`tree
      ensures var slot, done := old(tree[seg.id]), FinalizeSlot(codec, old(tree[seg.id]), seg.Counters());
              && tree == old(tree)[seg.id := done.slot] && error == done.error
      ensures error.None? ==>
                var b := old(tree[seg.id]).jsonlPartial.value;
                trace == Trace(old(tree[seg.id]), b, ManifestFor(Compress(b), seg.Counters()))
    {
      ghost var slot := tree[seg.id];
      error, trace := CompressSegment(seg);
      if error.Some? {
        return;
      }
      ghost var rest := PublishSegment(seg, slot);
      trace := trace + rest;
    }

    /** The rotating branch of `write`: finish the open segment, then open the next one in its place. */
    method Rotate(key: Key, id: SegmentId) returns (error: Option<StorageError>)
      requires Valid() && key in segments && segments[key].count > 0 && DirectoryKey(id.dir) == key
      modifies this
      ensures var finished := Finish(codec, old(State()), key);
              && error == (if finished.error.Some? then finished.error
                           else if CanOpen(finished.store, id) then None else Some(CannotOpen))
              && State() == (if finished.error.Some? then finished.store
                             else if error.None? then Open(finished.store, id)
                             else finished.store.(segments := old(segments)))
      ensures error.None? ==> Valid()
    {
      var seg := segments[key];
      ghost var trace;
      error, trace := FinalizeSegment(seg);
      if error.Some? {
        return;
      }
      manifests := manifests + [seg.id];
      error := OpenSegment(id);
      ghost var next := Segment(id, 0, None, None, 0);
      assert (old(segments) - {key})[key := next] == old(segments)[key := next];
    }

    /** The end of `write`: append the line and update the counters. */
    method AppendLine(e: Event)
      requires Valid() && KeyOf(e) in segments
      modifies this
      ensures State() == Append(codec, old(State()), e) && Valid()
    {
      var key, encoded := KeyOf(e), Line(codec, e);
      var seg := segments[key];
      tree := tree[seg.id := tree[seg.id].(jsonlPartial := Some(tree[seg.id].jsonlPartial.value + encoded))];
      segments := segments[key := Segment(seg.id, seg.count + 1, FirstOr(seg.first, e.number),
                                          Some(e.number), seg.bytes + |encoded|)];
    }

    method Write(e: Event, id: SegmentId, timeUp: bool) returns (error: Option<StorageError>)
      requires Valid() && DirectoryKey(id.dir) == KeyOf(e)
      modifies this
      ensures StoreOutcome(State(), error) == WriteNext(codec, rotateBytes, old(State()), e, id, timeUp)
      ensures error.None? ==> Valid()
    {
      var key := KeyOf(e);
      if key !in segments {
        error := OpenSegment(id);
      } else if NeedsRotation(segments[key], |Line(codec, e)|, rotateBytes, timeUp) {
        error := Rotate(key, id);
      } else {
        error := None;
      }
      if error.None? {
        AppendLine(e);
      }
    }

    method CloseSegment(key: Key) returns (error: Option<StorageError>)
      requires Valid() && key in segments
      modifies this
      ensures StoreOutcome(State(), error) == CloseOne(codec, old(State()), key)
    {
      var seg := segments[key];
      if seg.count > 0 {
        ghost var trace;
        error, trace := FinalizeSegment(seg);
        if error.Some? {
          return;
        }
        manifests := manifests + [seg.id];
      } else {
        tree := tree[seg.id := tree[seg.id].(jsonlPartial := None)];
      }
      segments := segments - {key};
      return None;
    }

    method Close(order: seq<Key>) returns (error: Option<StorageError>)
      requires Valid() && ListsSegments(State(), order)
      modifies this
      ensures StoreOutcome(State(), error) == CloseAll(codec, old(State()), order)
    {
      for k := 0 to |order|
        invariant Valid() && ListsSegments(State(), order[k..])
        invariant CloseAll(codec, old(State()), order) == CloseAll(codec, State(), order[k..])
      {
        CloseAllStep(codec, State(), order, k);
        error := CloseSegment(order[k]);
        if error.Some? {
          return;
        }
      }
      return None;
    }
  }

  /** The files of a segment after every step of a finalisation that succeeds. */
  ghost function Trace(slot: Slot, b: Bytes, doc: Document): seq<Slot> {
    [AtStage(slot, b, doc, Appending), AtStage(slot, b, doc, Renamed),
     AtStage(slot, b, doc, Compressing(Frame([], CutShort))), AtStage(slot, b, doc, Compressed),
     AtStage(slot, b, doc, Published), AtStage(slot, b, doc, WritingManifest),
     AtStage(slot, b, doc, ManifestWritten), AtStage(slot, b, doc, ManifestPublished),
     AtStage(slot, b, doc, Cleaned)]
  }
}
