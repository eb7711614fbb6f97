/**
 The raw part of the data directory: every segment is one stem in one hour directory of one source
 and stream, and owns up to six files that differ in their suffix only.
 */
module RawFiles {
  import opened Wrappers
  import opened Models
  import opened Lines

  datatype Directory = Directory(hour: int, source: EventSource, stream: EventStream)
  datatype SegmentId = SegmentId(dir: Directory, stem: string)

  datatype Ending = Whole | CutShort | Corrupt

  /** A Zstandard file: what decompressing it yields, and whether that then ends, stops early or fails. */
  datatype Frame = Frame(bytes: Bytes, ending: Ending)

  /** A manifest file; a file's SHA-256 is modelled by the file's content. */
  datatype Document =
    | Garbled
    | Manifest(sha256: Frame, eventCount: int, first: int, last: int)

  datatype Slot = Slot(
    jsonlPartial: Option<Bytes>, jsonl: Option<Bytes>,
    zstPartial: Option<Frame>, zst: Option<Frame>,
    manifestPartial: Option<Document>, manifest: Option<Document>)

  const NO_FILES := Slot(None, None, None, None, None, None)

  type Tree = map<SegmentId, Slot>

  /** The compressor writes one complete frame; distinct inputs give distinct files. */
  function Compress(b: Bytes): Frame { Frame(b, Whole) }

  function ManifestFor(frame: Frame, summary: Summary): Document
    requires summary.first.Some? && summary.last.Some?
  {
    Manifest(frame, summary.count, summary.first.value, summary.last.value)
  }

  /** The compressed file and manifest a segment holding exactly `events` ends up with. */
  ghost predicate Settled(c: LineCodec, slot: Slot, events: seq<Event>) {
    && events != []
    && slot.zst == Some(Compress(Encoded(c, events)))
    && slot.manifest == Some(ManifestFor(Compress(Encoded(c, events)), SummaryOf(events)))
  }

  /** The same as far as a reader can tell: the compressed file may end early, once it has given all of the events. */
  ghost predicate Readable(c: LineCodec, slot: Slot, events: seq<Event>) {
    && events != []
    && slot.zst.Some? && slot.zst.value.bytes == Encoded(c, events) && slot.zst.value.ending != Corrupt
    && slot.manifest == Some(ManifestFor(slot.zst.value, SummaryOf(events)))
  }

  /** `listing` names every manifest in the tree once, in whatever order the directory walk gives. */
  ghost predicate ListsManifests(tree: Tree, listing: seq<SegmentId>) {
    && (forall i, j :: 0 <= i < j < |listing| ==> listing[i] != listing[j])
    && (forall id :: id in listing <==> id in tree && tree[id].manifest.Some?)
  }
}
