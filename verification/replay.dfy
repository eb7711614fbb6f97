/** Integrity-checked replay of a raw directory (market_data/replay.py). */
module Replay {
  import opened Wrappers
  import opened Models
  import opened Lines
  import opened RawFiles
  import opened Merge

  // One segment.

  /** The lines `readline` hands out before the compressed reader ends or fails. */
  function ReadableLines(frame: Frame): seq<Bytes> {
    var cut := CutLines(frame.bytes);
    if cut.tail == [] || frame.ending == Corrupt then cut.lines else cut.lines + [cut.tail]
  }

  /** The events up to the first line that does not decode. */
  function DecodedPrefix(c: LineCodec, lines: seq<Bytes>): (events: seq<Event>)
    ensures |events| <= |lines|
    ensures forall i :: 0 <= i < |events| ==> c.decode(lines[i]) == Some(events[i])
    ensures |events| < |lines| ==> c.decode(lines[|events|]).None?
  {
    if lines == [] || c.decode(lines[0]).None? then []
    else [c.decode(lines[0]).value] + DecodedPrefix(c, lines[1..])
  }

  /** `RawSegmentIterator`: file present, hash, every line, then count and bounds against the manifest. */
  function SegmentStream(c: LineCodec, slot: Slot): Stream
    requires slot.manifest.Some? && slot.manifest.value.Manifest?
  {
    var doc := slot.manifest.value;
    if slot.zst.None? then Stream([], Some(MissingSegment))
    else if slot.zst.value != doc.sha256 then Stream([], Some(HashMismatch))
    else
      var lines := ReadableLines(slot.zst.value);
      var events := DecodedPrefix(c, lines);
      var summary := SummaryOf(events);
      Stream(events,
        if |events| < |lines| then Some(InvalidEvent)
        else if slot.zst.value.ending == Corrupt then Some(CannotDecompress)
        else if summary.count != doc.eventCount then Some(CountMismatch)
        else if summary.first != Some(doc.first) || summary.last != Some(doc.last) then Some(BoundsMismatch)
        else None)
  }

  method IterateSegment(c: LineCodec, slot: Slot) returns (s: Stream)
    requires slot.manifest.Some? && slot.manifest.value.Manifest?
    ensures s == SegmentStream(c, slot)
  {
    var doc := slot.manifest.value;
    if slot.zst.None? {
      return Stream([], Some(MissingSegment));
    }
    if slot.zst.value != doc.sha256 {
      return Stream([], Some(HashMismatch));
    }
    var lines := ReadableLines(slot.zst.value);
    ghost var all := DecodedPrefix(c, lines);
    var count: nat, first: Option<int>, last: Option<int>, yielded: seq<Event> := 0, None, None, [];
    for i := 0 to |lines|
      invariant i <= |all| && yielded == all[..i] && count == i
      invariant i == 0 ==> first == None && last == None
      invariant i > 0 ==> first == Some(all[0].number) && last == Some(all[i - 1].number)
    {
      var e := c.decode(lines[i]);
      if e.None? {
        assert all == all[..i];
        return Stream(yielded, Some(InvalidEvent));
      }
      count := count + 1;
      first := if first == None then Some(e.value.number) else first;
      last := Some(e.value.number);
      yielded := yielded + [e.value];
    }
    assert all == all[..|lines|];
    if slot.zst.value.ending == Corrupt {
      return Stream(yielded, Some(CannotDecompress));
    }
    if count != doc.eventCount {
      return Stream(yielded, Some(CountMismatch));
    }
    if first != Some(doc.first) || last != Some(doc.last) {
      return Stream(yielded, Some(BoundsMismatch));
    }
    return Stream(yielded, None);
  }

  lemma {:induction false} DecodedPrefixOfAll(c: LineCodec, lines: seq<Bytes>)
    requires DecodeAll(c, lines).Some?
    ensures DecodedPrefix(c, lines) == DecodeAll(c, lines).value
  {
    if lines != [] {
      DecodedPrefixOfAll(c, lines[1..]);
    }
  }

  /** A readable segment reads back as exactly its events, with no integrity error. */
  lemma {:induction false} ReadableReadsBack(c: LineCodec, slot: Slot, events: seq<Event>)
    requires Faithful(c) && Storable(c, events) && Readable(c, slot, events)
    ensures SegmentStream(c, slot) == Stream(events, None)
  {
    WholeFile(c, events);
    DecodedPrefixOfAll(c, ReadableLines(slot.zst.value));
  }

  /** And so does a settled one. */
  lemma {:induction false} SettledReadsBack(c: LineCodec, slot: Slot, events: seq<Event>)
    requires Faithful(c) && Storable(c, events) && Settled(c, slot, events)
    ensures SegmentStream(c, slot) == Stream(events, None)
  {
    ReadableReadsBack(c, slot, events);
  }

  // A damaged segment.

  /** The compressed file is there and is the manifest's, decodes to its end, and holds what the manifest says. */
  predicate Intact(c: LineCodec, slot: Slot, doc: Document)
    requires doc.Manifest?
  {
    && slot.zst.Some? && slot.zst.value == doc.sha256 && slot.zst.value.ending != Corrupt
    && var all := DecodeAll(c, ReadableLines(slot.zst.value));
       && all.Some? && SummaryOf(all.value).count == doc.eventCount
       && SummaryOf(all.value).first == Some(doc.first) && SummaryOf(all.value).last == Some(doc.last)
  }

  lemma {:induction false} PrefixIsAllIff(c: LineCodec, lines: seq<Bytes>)
    ensures DecodeAll(c, lines).Some? <==> |DecodedPrefix(c, lines)| == |lines|
  {
    if lines != [] {
      PrefixIsAllIff(c, lines[1..]);
    }
  }

  /**
   A segment reads without an integrity error if and only if it is intact. A file that is missing or not the one the
   manifest is for yields no event at all; any other yields exactly the events before its first broken line.
   */
  lemma {:induction false} DamageReported(c: LineCodec, slot: Slot)
    requires slot.manifest.Some? && slot.manifest.value.Manifest?
    ensures SegmentStream(c, slot).error == None <==> Intact(c, slot, slot.manifest.value)
    ensures slot.zst.None? || slot.zst.value != slot.manifest.value.sha256 ==> SegmentStream(c, slot).events == []
    ensures slot.zst == Some(slot.manifest.value.sha256) ==>
              SegmentStream(c, slot).events == DecodedPrefix(c, ReadableLines(slot.zst.value))
  {
    if slot.zst.Some? {
      var lines := ReadableLines(slot.zst.value);
      PrefixIsAllIff(c, lines);
      if DecodeAll(c, lines).Some? {
        DecodedPrefixOfAll(c, lines);
      }
    }
  }

  /** Putting any other file in place of a settled segment's, or none, is noticed before an event is read. */
  lemma {:induction false} OtherFileNoticed(c: LineCodec, slot: Slot, events: seq<Event>, other: Option<Frame>)
    requires Settled(c, slot, events) && other != slot.zst
    ensures var s := SegmentStream(c, slot.(zst := other)); s.events == [] && s.error.Some?
  {
    DamageReported(c, slot.(zst := other));
  }

  /** Putting any other manifest in place of a settled segment's is noticed. */
  lemma {:induction false} OtherManifestNoticed(c: LineCodec, slot: Slot, events: seq<Event>, other: Document)
    requires Faithful(c) && Storable(c, events) && Settled(c, slot, events) && other.Manifest?
    ensures SegmentStream(c, slot.(manifest := Some(other))).error == None <==> slot.manifest == Some(other)
  {
    WholeFile(c, events);
    DamageReported(c, slot.(manifest := Some(other)));
    assert ReadableLines(slot.zst.value) == CutLines(Encoded(c, events)).lines;
  }

  // The segments of one directory, one after the other.

  /** Position of the first event whose number does not lie past `last`, else the number of events. */
  function FirstOverlap(events: seq<Event>, last: Option<int>): (k: nat)
    ensures k <= |events|
    ensures forall i :: 0 <= i < k ==> last.None? || events[i].number > last.value
    ensures k < |events| ==> last.Some? && events[k].number <= last.value
  {
    if events == [] || (last.Some? && events[0].number <= last.value) then 0
    else 1 + FirstOverlap(events[1..], last)
  }

  /** `RawStreamChain.__iter__` over its segments, already in order of first number. */
  function Chain(parts: seq<Stream>, previousLast: Option<int>): Stream {
    if parts == [] then Stream([], None)
    else
      var part := parts[0];
      var k := FirstOverlap(part.events, previousLast);
      if k < |part.events| then Stream(part.events[..k], Some(OverlappingRanges))
      else if part.error.Some? then part
      else
        var last := if part.events == [] then previousLast else Some(part.events[|part.events| - 1].number);
        var rest := Chain(parts[1..], last);
        Stream(part.events + rest.events, rest.error)
  }

  lemma {:induction false} ResumeChain(yielded: seq<Event>, parts: seq<Stream>, p: nat, previousLast: Option<int>)
    requires p < |parts|
    ensures var part := parts[p];
            var k := FirstOverlap(part.events, previousLast);
            Resumed(yielded, Chain(parts[p..], previousLast)) ==
            if k < |part.events| then Stream(yielded + part.events[..k], Some(OverlappingRanges))
            else if part.error.Some? then Stream(yielded + part.events, part.error)
            else Resumed(yielded + part.events, Chain(parts[p + 1..],
              if part.events == [] then previousLast else Some(part.events[|part.events| - 1].number)))
  {
    assert parts[p..][0] == parts[p] && parts[p..][1..] == parts[p + 1..];
    var part := parts[p];
    var last := if part.events == [] then previousLast else Some(part.events[|part.events| - 1].number);
    var rest := Chain(parts[p + 1..], last);
    assert yielded + (part.events + rest.events) == yielded + part.events + rest.events;
  }

  /** The inner loop: how many events of the part pass, and the number of the last of them. */
  method IteratePart(events: seq<Event>, previousLast: Option<int>) returns (k: nat, last: Option<int>)
    ensures k == FirstOverlap(events, previousLast)
    ensures last == if k == 0 then None else Some(events[k - 1].number)
  {
    k, last := 0, None;
    while k < |events|
      invariant k <= FirstOverlap(events, previousLast)
      invariant last == if k == 0 then None else Some(events[k - 1].number)
    {
      if previousLast.Some? && events[k].number <= previousLast.value {
        return;
      }
      last := Some(events[k].number);
      k := k + 1;
    }
  }

  method IterateChain(parts: seq<Stream>) returns (s: Stream)
    ensures s == Chain(parts, None)
  {
    var previousLast: Option<int>, yielded: seq<Event> := None, [];
    var p := 0;
    while p < |parts|
      invariant p <= |parts|
      invariant Chain(parts, None) == Resumed(yielded, Chain(parts[p..], previousLast))
    {
      ResumeChain(yielded, parts, p, previousLast);
      var k, last := IteratePart(parts[p].events, previousLast);
      if k < |parts[p].events| {
        return Stream(yielded + parts[p].events[..k], Some(OverlappingRanges));
      }
      yielded := yielded + parts[p].events;
      if parts[p].error.Some? {
        return Stream(yielded, parts[p].error);
      }
      if last.Some? {
        previousLast := last;
      }
      p := p + 1;
    }
    assert yielded + [] == yielded;
    return Stream(yielded, None);
  }

  ghost predicate AllBefore(a: seq<Event>, b: seq<Event>) {
    forall i, j :: 0 <= i < |a| && 0 <= j < |b| ==> a[i].number < b[j].number
  }

  function Concat(parts: seq<seq<Event>>): seq<Event> {
    if parts == [] then [] else parts[0] + Concat(parts[1..])
  }

  lemma {:induction false} ConcatMembers(parts: seq<seq<Event>>, e: Event)
    ensures e in Concat(parts) <==> exists i :: 0 <= i < |parts| && e in parts[i]
  {
    if parts != [] {
      ConcatMembers(parts[1..], e);
      if i :| 0 <= i < |parts| && e in parts[i] {
        assert i > 0 ==> e in parts[1..][i - 1];
      }
    }
  }

  /** Segments that each increase and follow one another in number. */
  ghost predicate InOrder(parts: seq<seq<Event>>) {
    && (forall i :: 0 <= i < |parts| ==> parts[i] != [] && Increasing(parts[i]))
    && (forall i, j :: 0 <= i < j < |parts| ==> AllBefore(parts[i], parts[j]))
  }

  lemma {:induction false} ConcatIncreasing(parts: seq<seq<Event>>)
    requires InOrder(parts)
    ensures Increasing(Concat(parts))
  {
    if parts != [] {
      var head, tail := parts[0], Concat(parts[1..]);
      assert InOrder(parts[1..]);
      ConcatIncreasing(parts[1..]);
      forall i, j | 0 <= i < |head| && 0 <= j < |tail| ensures head[i].number < tail[j].number {
        ConcatMembers(parts[1..], tail[j]);
        assert tail[j] in tail;
        var k :| 0 <= k < |parts[1..]| && tail[j] in parts[1..][k];
        assert AllBefore(parts[0], parts[k + 1]);
      }
    }
  }

  /** Segments in order chain into one stream without an error. */
  lemma {:induction false} ChainsInOrder(parts: seq<seq<Event>>, streams: seq<Stream>, last: Option<int>)
    requires |streams| == |parts| && InOrder(parts)
    requires forall i :: 0 <= i < |parts| ==> streams[i] == Stream(parts[i], None)
    requires last.Some? && parts != [] ==> last.value < parts[0][0].number
    ensures Chain(streams, last) == Stream(Concat(parts), None)
  {
    if parts != [] {
      var head := parts[0];
      assert forall i :: 0 <= i < |head| ==> last.None? || head[i].number > last.value;
      assert FirstOverlap(head, last) == |head|;
      assert InOrder(parts[1..]);
      assert |parts| > 1 ==> AllBefore(parts[0], parts[1]);
      ChainsInOrder(parts[1..], streams[1..], Some(head[|head| - 1].number));
    }
  }

  function EventsOfEach(streams: seq<Stream>): (each: seq<seq<Event>>)
    ensures |each| == |streams|
  {
    if streams == [] then [] else [streams[0].events] + EventsOfEach(streams[1..])
  }

  /** The next event does not lie past the last number given, or past an event already yielded. */
  ghost predicate Overlaps(yielded: seq<Event>, last: Option<int>, next: Event) {
    || (last.Some? && next.number <= last.value)
    || (exists j :: 0 <= j < |yielded| && next.number <= yielded[j].number)
  }

  /**
   What a chain of readable segments yields, in order or not: the longest beginning of all their events that increases
   from the last number given on. It ends with an error if and only if that is not all of them.
   */
  lemma {:induction false} ChainLongest(streams: seq<Stream>, last: Option<int>)
    requires AllIncreasing(streams) && NoneFails(streams)
    ensures var s, all := Chain(streams, last), Concat(EventsOfEach(streams));
            && s.events <= all && Increasing(s.events)
            && (last.Some? ==> forall i :: 0 <= i < |s.events| ==> s.events[i].number > last.value)
            && (s.error.None? <==> s.events == all)
            && (s.error.Some? ==> |s.events| < |all| && Overlaps(s.events, last, all[|s.events|]))
  {
    if streams != [] {
      var head := streams[0].events;
      assert AllIncreasing(streams[1..]) && NoneFails(streams[1..]);
      assert EventsOfEach(streams)[1..] == EventsOfEach(streams[1..]);
      if FirstOverlap(head, last) == |head| {
        var next := if head == [] then last else Some(head[|head| - 1].number);
        ChainLongest(streams[1..], next);
        ChainContinues(head, last, Chain(streams[1..], next), Concat(EventsOfEach(streams[1..])));
      }
    }
  }

  lemma ChainContinues(head: seq<Event>, last: Option<int>, rest: Stream, all: seq<Event>)
    requires Increasing(head) && FirstOverlap(head, last) == |head| && rest.events <= all && Increasing(rest.events)
    requires var next := if head == [] then last else Some(head[|head| - 1].number);
             && (next.Some? ==> forall i :: 0 <= i < |rest.events| ==> rest.events[i].number > next.value)
             && (rest.error.Some? ==> |rest.events| < |all| && Overlaps(rest.events, next, all[|rest.events|]))
    ensures var yielded := head + rest.events;
            && yielded <= head + all && Increasing(yielded)
            && (last.Some? ==> forall i :: 0 <= i < |yielded| ==> yielded[i].number > last.value)
            && (rest.error.Some? ==> Overlaps(yielded, last, (head + all)[|yielded|]))
  {
    var yielded := head + rest.events;
    if rest.error.Some? {
      var e := (head + all)[|yielded|];
      assert e == all[|rest.events|];
      if j :| 0 <= j < |rest.events| && e.number <= rest.events[j].number {
        assert yielded[|head| + j] == rest.events[j];
      } else if head != [] {
        assert yielded[|head| - 1] == head[|head| - 1];
      }
    }
  }

  /** And only segments in order do: a chain without an error is increasing from end to end. */
  lemma {:induction false} ChainOnlyInOrder(streams: seq<Stream>, last: Option<int>)
    requires AllIncreasing(streams) && Chain(streams, last).error == None
    ensures NoneFails(streams) && Increasing(Chain(streams, last).events)
    ensures last.Some? ==> forall k :: 0 <= k < |Chain(streams, last).events| ==>
                             Chain(streams, last).events[k].number > last.value
  {
    NoneFailed(streams, last);
    ChainLongest(streams, last);
  }

  lemma {:induction false} NoneFailed(streams: seq<Stream>, last: Option<int>)
    requires Chain(streams, last).error == None
    ensures NoneFails(streams)
  {
    if streams != [] {
      var head := streams[0].events;
      NoneFailed(streams[1..], if head == [] then last else Some(head[|head| - 1].number));
      forall i | 0 <= i < |streams| ensures streams[i].error == None {
        assert i > 0 ==> streams[i] == streams[1..][i - 1];
      }
    }
  }

  // The whole directory.

  predicate ReadableManifests(tree: Tree, listing: seq<SegmentId>) {
    forall id :: id in listing ==> id in tree && tree[id].manifest.Some? && tree[id].manifest.value.Manifest?
  }

  /** The key the manifests of a directory are sorted by. */
  function FirstNumber(tree: Tree, id: SegmentId): int {
    if ReadableManifests(tree, [id]) then tree[id].manifest.value.first else 0
  }

  function InsertByFirst(tree: Tree, id: SegmentId, sorted: seq<SegmentId>): (r: seq<SegmentId>)
    ensures multiset(r) == multiset(sorted) + multiset{id}
  {
    if sorted == [] || FirstNumber(tree, id) <= FirstNumber(tree, sorted[0]) then [id] + sorted
    else
      assert sorted == [sorted[0]] + sorted[1..];
      [sorted[0]] + InsertByFirst(tree, id, sorted[1..])
  }

  /** The manifests of one directory by their first ingest number; equal ones keep their order. */
  function SortByFirst(tree: Tree, ids: seq<SegmentId>): (r: seq<SegmentId>)
    ensures multiset(r) == multiset(ids)
  {
    if ids == [] then []
    else
      assert ids == [ids[0]] + ids[1..];
      InsertByFirst(tree, ids[0], SortByFirst(tree, ids[1..]))
  }

  /** The directories that hold a listed manifest, in the order in which they are met. */
  function Directories(listing: seq<SegmentId>): (dirs: seq<Directory>)
    ensures forall d :: d in dirs <==> exists i :: 0 <= i < |listing| && listing[i].dir == d
    ensures forall i, j :: 0 <= i < j < |dirs| ==> dirs[i] != dirs[j]
  {
    if listing == [] then []
    else
      var last := listing[|listing| - 1];
      var before := Directories(listing[..|listing| - 1]);
      if last.dir in before then before else before + [last.dir]
  }

  function InDirectory(listing: seq<SegmentId>, d: Directory): (ids: seq<SegmentId>)
    ensures forall id :: id in ids <==> id in listing && id.dir == d
  {
    if listing == [] then []
    else
      var last := listing[|listing| - 1];
      InDirectory(listing[..|listing| - 1], d) + if last.dir == d then [last] else []
  }

  lemma SameMembers(a: seq<SegmentId>, b: seq<SegmentId>)
    requires multiset(a) == multiset(b)
    ensures forall x :: x in a <==> x in b
  {
    forall x ensures x in a <==> x in b {
      assert x in a <==> x in multiset(a);
      assert x in b <==> x in multiset(b);
    }
  }

  function DirectoryStream(c: LineCodec, tree: Tree, ids: seq<SegmentId>): Stream
    requires ReadableManifests(tree, ids)
  {
    var sorted := SortByFirst(tree, ids);
    SameMembers(sorted, ids);
    Chain(seq(|sorted|, i requires 0 <= i < |sorted| => SegmentStream(c, tree[sorted[i]])), None)
  }

  function DirectoryStreams(c: LineCodec, tree: Tree, listing: seq<SegmentId>, dirs: seq<Directory>)
    : (streams: seq<Stream>)
    requires ReadableManifests(tree, listing)
    ensures |streams| == |dirs|
  {
    if dirs == [] then []
    else
      DirectoryStreams(c, tree, listing, dirs[..|dirs| - 1]) +
      [DirectoryStream(c, tree, InDirectory(listing, dirs[|dirs| - 1]))]
  }

  lemma {:induction false} DirectoryStreamsAt(c: LineCodec, tree: Tree, listing: seq<SegmentId>,
                                              dirs: seq<Directory>, i: nat)
    requires ReadableManifests(tree, listing) && i < |dirs|
    ensures DirectoryStreams(c, tree, listing, dirs)[i] == DirectoryStream(c, tree, InDirectory(listing, dirs[i]))
  {
    if i < |dirs| - 1 {
      DirectoryStreamsAt(c, tree, listing, dirs[..|dirs| - 1], i);
    }
  }

  /** `read_raw_events`: group the manifests by directory, chain each group, merge the chains. */
  function ReadRawEvents(c: LineCodec, tree: Tree, listing: seq<SegmentId>): Stream
    requires ListsManifests(tree, listing)
  {
    if !ReadableManifests(tree, listing) then Stream([], Some(InvalidManifest))
    else
      MergeStreams(DirectoryStreams(c, tree, listing, Directories(listing)))
  }

  lemma GroupingStep(listing: seq<SegmentId>, k: nat)
    requires k < |listing|
    ensures Directories(listing[..k + 1]) ==
            Directories(listing[..k]) + if listing[k].dir in Directories(listing[..k]) then [] else [listing[k].dir]
    ensures forall d :: InDirectory(listing[..k + 1], d) ==
                        InDirectory(listing[..k], d) + if listing[k].dir == d then [listing[k]] else []
  {
    assert listing[..k + 1][..k] == listing[..k];
  }

  lemma {:induction false} DirectoryStreamsStep(c: LineCodec, tree: Tree, listing: seq<SegmentId>, dirs: seq<Directory>,
                                                i: nat)
    requires ReadableManifests(tree, listing) && i < |dirs|
    ensures DirectoryStreams(c, tree, listing, dirs[..i + 1]) ==
            DirectoryStreams(c, tree, listing, dirs[..i]) + [DirectoryStream(c, tree, InDirectory(listing, dirs[i]))]
  {
    assert dirs[..i + 1][..i] == dirs[..i];
  }

  /** The first loop of `read_raw_events`; None when a manifest cannot be read. */
  method GroupByParent(tree: Tree, listing: seq<SegmentId>)
    returns (grouped: Option<map<Directory, seq<SegmentId>>>, order: seq<Directory>)
    requires ListsManifests(tree, listing)
    ensures grouped.Some? <==> ReadableManifests(tree, listing)
    ensures grouped.Some? ==> order == Directories(listing)
    ensures grouped.Some? ==> forall d :: d in order ==>
              d in grouped.value && grouped.value[d] == InDirectory(listing, d)
  {
    var groups: map<Directory, seq<SegmentId>> := map[];
    order := [];
    for k := 0 to |listing|
      invariant ReadableManifests(tree, listing[..k])
      invariant order == Directories(listing[..k])
      invariant forall d :: d in groups <==> d in order
      invariant forall d :: d in order ==> groups[d] == InDirectory(listing[..k], d)
    {
      var id := listing[k];
      if !tree[id].manifest.value.Manifest? {
        return None, [];
      }
      GroupingStep(listing, k);
      if id.dir !in groups {
        EmptyDirectory(listing[..k], id.dir);
        groups := groups[id.dir := []];
        order := order + [id.dir];
      }
      groups := groups[id.dir := groups[id.dir] + [id]];
    }
    assert listing[..|listing|] == listing;
    grouped := Some(groups);
  }

  method ReadRaw(c: LineCodec, tree: Tree, listing: seq<SegmentId>) returns (merged: Stream)
    requires ListsManifests(tree, listing)
    ensures merged == ReadRawEvents(c, tree, listing)
  {
    var grouped, order := GroupByParent(tree, listing);
    if grouped.None? {
      return Stream([], Some(InvalidManifest));
    }
    var streams := OpenStreams(c, tree, listing, grouped.value, order);
    merged := MergeRawStreams(streams);
  }

  /** The generator that chains each group's segments. */
  method OpenStreams(c: LineCodec, tree: Tree, ghost listing: seq<SegmentId>,
                     grouped: map<Directory, seq<SegmentId>>, order: seq<Directory>) returns (streams: seq<Stream>)
    requires ReadableManifests(tree, listing)
    requires forall d :: d in order ==> d in grouped && grouped[d] == InDirectory(listing, d)
    ensures streams == DirectoryStreams(c, tree, listing, order)
  {
    streams := [];
    for i := 0 to |order|
      invariant streams == DirectoryStreams(c, tree, listing, order[..i])
    {
      DirectoryStreamsStep(c, tree, listing, order, i);
      assert order[i] in order;
      streams := streams + [DirectoryStream(c, tree, grouped[order[i]])];
    }
    assert order[..|order|] == order;
  }

  lemma {:induction false} EmptyDirectory(listing: seq<SegmentId>, d: Directory)
    requires d !in Directories(listing)
    ensures InDirectory(listing, d) == []
  {
    if listing != [] {
      EmptyDirectory(listing[..|listing| - 1], d);
    }
  }

  // Reading a directory of settled segments.

  ghost predicate Distinct(ids: seq<SegmentId>) {
    forall i, j :: 0 <= i < j < |ids| ==> ids[i] != ids[j]
  }

  ghost predicate SortedByFirst(tree: Tree, ids: seq<SegmentId>) {
    forall i, j :: 0 <= i < j < |ids| ==> FirstNumber(tree, ids[i]) <= FirstNumber(tree, ids[j])
  }

  lemma {:induction false} InsertSorts(tree: Tree, id: SegmentId, sorted: seq<SegmentId>)
    requires Distinct(sorted) && SortedByFirst(tree, sorted) && id !in sorted
    ensures Distinct(InsertByFirst(tree, id, sorted)) && SortedByFirst(tree, InsertByFirst(tree, id, sorted))
    ensures forall x :: x in InsertByFirst(tree, id, sorted) <==> x == id || x in sorted
  {
    if sorted == [] || FirstNumber(tree, id) <= FirstNumber(tree, sorted[0]) {
    } else {
      InsertSorts(tree, id, sorted[1..]);
      var rest := InsertByFirst(tree, id, sorted[1..]);
      forall j | 0 <= j < |rest|
        ensures rest[j] != sorted[0] && FirstNumber(tree, sorted[0]) <= FirstNumber(tree, rest[j])
      {
        assert rest[j] in rest;
      }
      assert sorted == [sorted[0]] + sorted[1..];
    }
  }

  lemma {:induction false} SortSorts(tree: Tree, ids: seq<SegmentId>)
    requires Distinct(ids)
    ensures Distinct(SortByFirst(tree, ids)) && SortedByFirst(tree, SortByFirst(tree, ids))
    ensures forall x :: x in SortByFirst(tree, ids) <==> x in ids
  {
    if ids != [] {
      DistinctTail(ids);
      SortSorts(tree, ids[1..]);
      InsertSorts(tree, ids[0], SortByFirst(tree, ids[1..]));
    }
  }

  lemma DistinctTail(ids: seq<SegmentId>)
    requires Distinct(ids) && ids != []
    ensures Distinct(ids[1..]) && ids[0] !in ids[1..]
    ensures forall x :: x in ids <==> x == ids[0] || x in ids[1..]
  {
    assert ids == [ids[0]] + ids[1..];
  }

  lemma {:induction false} DirectoryDistinct(listing: seq<SegmentId>, d: Directory)
    requires Distinct(listing)
    ensures Distinct(InDirectory(listing, d))
  {
    if listing != [] {
      DirectoryDistinct(listing[..|listing| - 1], d);
    }
  }

  /**
   The tree holds each listed segment readable with its own part of the events; parts of one directory
   follow one another in number, and no event is in two parts.
   */
  ghost predicate Archive(c: LineCodec, tree: Tree, listing: seq<SegmentId>, parts: map<SegmentId, seq<Event>>) {
    && ListsManifests(tree, listing)
    && (forall id :: id in listing ==> id in parts)
    && (forall id :: id in listing ==>
          Readable(c, tree[id], parts[id]) && Storable(c, parts[id]) && Increasing(parts[id]))
    && (forall a, b :: a in listing && b in listing && a != b && a.dir == b.dir ==>
          AllBefore(parts[a], parts[b]) || AllBefore(parts[b], parts[a]))
    && (forall a, b, e :: a in listing && b in listing && a != b && e in parts[a] ==> e !in parts[b])
  }

  function PartsOf(ids: seq<SegmentId>, parts: map<SegmentId, seq<Event>>): seq<seq<Event>>
    requires forall id :: id in ids ==> id in parts
  {
    seq(|ids|, i requires 0 <= i < |ids| => parts[ids[i]])
  }

  lemma PartsInOrder(c: LineCodec, tree: Tree, listing: seq<SegmentId>, ids: seq<SegmentId>,
                     parts: map<SegmentId, seq<Event>>)
    requires Archive(c, tree, listing, parts)
    requires Distinct(ids) && SortedByFirst(tree, ids)
    requires forall id :: id in ids ==> id in listing && id.dir == ids[0].dir
    ensures InOrder(PartsOf(ids, parts))
  {
    forall i, j | 0 <= i < j < |ids| ensures AllBefore(parts[ids[i]], parts[ids[j]]) {
      var a, b := ids[i], ids[j];
      assert FirstNumber(tree, a) == parts[a][0].number && FirstNumber(tree, b) == parts[b][0].number;
    }
  }

  lemma PartsMember(ids: seq<SegmentId>, parts: map<SegmentId, seq<Event>>, e: Event)
    requires forall id :: id in ids ==> id in parts
    ensures e in Concat(PartsOf(ids, parts)) <==> exists id :: id in ids && e in parts[id]
  {
    var mine := PartsOf(ids, parts);
    ConcatMembers(mine, e);
    if id :| id in ids && e in parts[id] {
      var i :| 0 <= i < |ids| && ids[i] == id;
      assert e in mine[i];
    }
  }

  /** A directory of an archive reads back as an increasing stream of exactly its parts' events. */
  lemma {:induction false} DirectoryReadsBack(c: LineCodec, tree: Tree, listing: seq<SegmentId>, d: Directory,
                                              parts: map<SegmentId, seq<Event>>)
    requires Faithful(c) && Archive(c, tree, listing, parts) && ReadableManifests(tree, listing)
    ensures var s := DirectoryStream(c, tree, InDirectory(listing, d));
            && s.error == None && Increasing(s.events)
            && forall e :: e in s.events <==> exists id :: id in listing && id.dir == d && e in parts[id]
  {
    var ids := InDirectory(listing, d);
    DirectoryDistinct(listing, d);
    SortSorts(tree, ids);
    var sorted := SortByFirst(tree, ids);
    var streams := seq(|sorted|, i requires 0 <= i < |sorted| => SegmentStream(c, tree[sorted[i]]));
    forall i | 0 <= i < |sorted| ensures streams[i] == Stream(PartsOf(sorted, parts)[i], None) {
      ReadableReadsBack(c, tree[sorted[i]], parts[sorted[i]]);
    }
    PartsInOrder(c, tree, listing, sorted, parts);
    ChainsInOrder(PartsOf(sorted, parts), streams, None);
    ConcatIncreasing(PartsOf(sorted, parts));
    forall e ensures e in Concat(PartsOf(sorted, parts)) <==>
                     exists id :: id in listing && id.dir == d && e in parts[id] {
      PartsMember(sorted, parts, e);
    }
  }

  lemma {:induction false} DirectoriesHold(listing: seq<SegmentId>, parts: map<SegmentId, seq<Event>>,
                                           dirs: seq<Directory>, streams: seq<Stream>, e: Event)
    requires forall id :: id in listing ==> id in parts
    requires dirs == Directories(listing) && |streams| == |dirs|
    requires forall i :: 0 <= i < |dirs| ==>
      (e in streams[i].events <==> exists id :: id in listing && id.dir == dirs[i] && e in parts[id])
    ensures Holds(streams, e) <==> exists id :: id in listing && e in parts[id]
  {
    if id :| id in listing && e in parts[id] {
      var k :| 0 <= k < |listing| && listing[k] == id;
      assert listing[k].dir in dirs;
      var i :| 0 <= i < |dirs| && dirs[i] == listing[k].dir;
      assert e in streams[i].events;
    }
  }

  /** The streams of the directories split the run between them. */
  lemma {:induction false} DirectoriesPartition(c: LineCodec, tree: Tree, listing: seq<SegmentId>,
                                                parts: map<SegmentId, seq<Event>>, run: seq<Event>)
    requires Faithful(c) && Archive(c, tree, listing, parts) && ReadableManifests(tree, listing)
    requires forall e :: e in run <==> exists id :: id in listing && e in parts[id]
    ensures var streams := DirectoryStreams(c, tree, listing, Directories(listing));
            NoneFails(streams) && AllIncreasing(streams) && Partition(streams, run)
  {
    var dirs := Directories(listing);
    var streams := DirectoryStreams(c, tree, listing, dirs);
    forall i | 0 <= i < |dirs|
      ensures streams[i].error == None && Increasing(streams[i].events)
      ensures forall e :: e in streams[i].events <==>
                exists id :: id in listing && id.dir == dirs[i] && e in parts[id]
    {
      DirectoryStreamsAt(c, tree, listing, dirs, i);
      DirectoryReadsBack(c, tree, listing, dirs[i], parts);
    }
    forall e ensures e in run <==> Holds(streams, e) {
      DirectoriesHold(listing, parts, dirs, streams, e);
    }
    forall i, j, e | 0 <= i < j < |streams| && e in streams[i].events ensures e !in streams[j].events {
      var a :| a in listing && a.dir == dirs[i] && e in parts[a];
      assert forall b :: b in listing && b.dir == dirs[j] ==> b != a && e !in parts[b];
    }
  }

  /**
   Whatever order the directory walk lists the manifests in, an archive whose parts make up one
   consecutive run is read back as exactly that run, with no integrity error.
   */
  lemma ArchiveReadsBack(c: LineCodec, tree: Tree, listing: seq<SegmentId>,
                         parts: map<SegmentId, seq<Event>>, run: seq<Event>)
    requires Faithful(c) && Archive(c, tree, listing, parts)
    requires Consecutive(run)
    requires forall e :: e in run <==> exists id :: id in listing && e in parts[id]
    ensures ReadRawEvents(c, tree, listing) == Stream(run, None)
  {
    assert ReadableManifests(tree, listing);
    DirectoriesPartition(c, tree, listing, parts, run);
    MergesRun(DirectoryStreams(c, tree, listing, Directories(listing)), run);
  }

  /** `run` holds the events of the listed parts and nothing else. */
  ghost predicate MakesUp(listing: seq<SegmentId>, parts: map<SegmentId, seq<Event>>, run: seq<Event>)
    requires forall id :: id in listing ==> id in parts
  {
    forall e :: e in run <==> exists id :: id in listing && e in parts[id]
  }

  /** An archive is read to the end without an integrity error exactly when its events are one consecutive run. */
  lemma ArchiveCompletesIff(c: LineCodec, tree: Tree, listing: seq<SegmentId>, parts: map<SegmentId, seq<Event>>)
    requires Faithful(c) && Archive(c, tree, listing, parts)
    ensures ReadRawEvents(c, tree, listing).error == None <==>
            exists run :: Consecutive(run) && MakesUp(listing, parts, run)
  {
    if run :| Consecutive(run) && MakesUp(listing, parts, run) {
      ArchiveReadsBack(c, tree, listing, parts, run);
    }
    if ReadRawEvents(c, tree, listing).error == None {
      var streams := DirectoryStreams(c, tree, listing, Directories(listing));
      var everything := Concat(PartsOf(listing, parts));
      forall e ensures e in everything <==> exists id :: id in listing && e in parts[id] {
        PartsMember(listing, parts, e);
      }
      DirectoriesPartition(c, tree, listing, parts, everything);
      CompletesIffOneRun(streams);
      var run :| Consecutive(run) && Partition(streams, run);
      forall e ensures e in run <==> exists id :: id in listing && e in parts[id] {
        assert e in run <==> Holds(streams, e);
        assert e in everything <==> Holds(streams, e);
      }
      assert MakesUp(listing, parts, run);
    }
  }
}
