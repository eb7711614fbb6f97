/**
 Start-up recovery of the raw tree after a crash (market_data/storage.py:254-466). Every step of a
 pass touches the files of one segment and the quarantine only.
 */
module Recovery {
  import opened Wrappers
  import opened Models
  import opened Lines
  import opened RawFiles
  import opened RawStorage
  import opened RawLog
  import opened Merge
  import opened Replay

  datatype Quarantined =
    | QuarantinedJsonl(bytes: Bytes) | QuarantinedZst(frame: Frame) | QuarantinedManifest(doc: Document)

  /** The files of one segment after a step, what it moved to quarantine, and whether it raised. */
  datatype Step = Step(slot: Slot, quarantine: seq<Quarantined>, raised: bool)

  function Unchanged(slot: Slot): Step { Step(slot, [], false) }

  // The passes, one segment at a time.

  /**
   `_recover_jsonl_partial`: drop an empty file, cut a torn last line off, finalise what is left. A
   complete line that does not decode sends the file to quarantine. When finalising fails the partial
   file has been renamed already, so moving it to quarantine raises.
   */
  function RecoverPartial(c: LineCodec, slot: Slot): Step
    requires slot.jsonlPartial.Some?
  {
    var b := slot.jsonlPartial.value;
    var gone := slot.(jsonlPartial := None);
    if b == [] then Unchanged(gone)
    else
      var lines := CutLines(b).lines;
      var kept := Join(lines);
      if DecodeAll(c, lines).None? then Step(gone, [QuarantinedJsonl(b)], false)
      else if kept == [] then Unchanged(gone)
      else
        var summary := Scanned(c, kept, true);
        if summary.None? then Step(gone, [QuarantinedJsonl(kept)], false)
        else
          var done := FinalizeSlot(c, slot.(jsonlPartial := Some(kept)), summary.value);
          Step(done.slot, [], done.error.Some?)
  }

  function PartialPass(c: LineCodec, slot: Slot): Step {
    if slot.jsonlPartial.None? then Unchanged(slot) else RecoverPartial(c, slot)
  }

  /** A JSONL file without a manifest is made partial again and recovered; if that raises it is quarantined. */
  function OrphanJsonlPass(c: LineCodec, slot: Slot): Step {
    if slot.jsonl.None? || slot.manifest.Some? then Unchanged(slot)
    else
      var r := RecoverPartial(c, slot.(jsonlPartial := slot.jsonl, jsonl := None));
      if r.raised && r.slot.jsonl.Some? then
        Step(r.slot.(jsonl := None), r.quarantine + [QuarantinedJsonl(r.slot.jsonl.value)], false)
      else Step(r.slot, r.quarantine, false)
  }

  /** `_raw_event_metadata` of a compressed file. */
  function FrameSummary(c: LineCodec, frame: Frame): (r: Option<Summary>)
    ensures r.Some? && r.value.count > 0 ==> r.value.first.Some? && r.value.last.Some?
  {
    if frame.ending == Corrupt then None else Scanned(c, frame.bytes, true)
  }

  /** `_raw_manifest`: None when it raises, else the files with a manifest in place. */
  function WithManifest(c: LineCodec, slot: Slot): Option<Slot>
    requires slot.zst.Some?
  {
    var summary :- FrameSummary(c, slot.zst.value);
    if summary.count == 0 then None
    else if slot.manifest.Some? then Some(slot)
    else Some(slot.(manifestPartial := None, manifest := Some(ManifestFor(slot.zst.value, summary))))
  }

  function CompressedPartialPass(c: LineCodec, slot: Slot): Step {
    if slot.zstPartial.None? then Unchanged(slot)
    else if FrameSummary(c, slot.zstPartial.value).None? then
      Step(slot.(zstPartial := None), [QuarantinedZst(slot.zstPartial.value)], false)
    else
      var moved := slot.(zst := slot.zstPartial, zstPartial := None);
      var r := WithManifest(c, moved);
      Unchanged(if r.Some? then r.value else moved)
  }

  function MissingManifestPass(c: LineCodec, slot: Slot): Step {
    if slot.zst.None? || slot.manifest.Some? then Unchanged(slot)
    else
      var r := WithManifest(c, slot);
      if r.Some? then Unchanged(r.value)
      else Step(slot.(zst := None), [QuarantinedZst(slot.zst.value)], false)
  }

  predicate Describes(doc: Document, slot: Slot) {
    doc.Manifest? && slot.zst == Some(doc.sha256)
  }

  function PartialManifestPass(slot: Slot): Step {
    if slot.manifestPartial.None? then Unchanged(slot)
    else if Describes(slot.manifestPartial.value, slot) then
      Unchanged(slot.(manifestPartial := None, manifest := slot.manifestPartial))
    else Step(slot.(manifestPartial := None), [QuarantinedManifest(slot.manifestPartial.value)], false)
  }

  function ManifestPass(slot: Slot): Step {
    if slot.manifest.None? || Describes(slot.manifest.value, slot) then Unchanged(slot)
    else Step(slot.(manifest := None), [QuarantinedManifest(slot.manifest.value)], false)
  }

  datatype Pass = Partials | OrphanJsonl | CompressedPartials | MissingManifests | PartialManifests | Manifests

  const PASSES := [Partials, OrphanJsonl, CompressedPartials, MissingManifests, PartialManifests, Manifests]

  function PassSlot(c: LineCodec, pass: Pass, slot: Slot): Step {
    match pass
    case Partials => PartialPass(c, slot)
    case OrphanJsonl => OrphanJsonlPass(c, slot)
    case CompressedPartials => CompressedPartialPass(c, slot)
    case MissingManifests => MissingManifestPass(c, slot)
    case PartialManifests => PartialManifestPass(slot)
    case Manifests => ManifestPass(slot)
  }

  /** The first `n` passes over one segment; a step that raises ends them. */
  function RecoverFrom(c: LineCodec, slot: Slot, n: nat): Step
    requires n <= |PASSES|
  {
    if n == 0 then Unchanged(slot)
    else
      var before := RecoverFrom(c, slot, n - 1);
      if before.raised then before
      else
        var step := PassSlot(c, PASSES[n - 1], before.slot);
        Step(step.slot, before.quarantine + step.quarantine, step.raised)
  }

  /** All passes over one segment. */
  function RecoverSlot(c: LineCodec, slot: Slot): Step {
    RecoverFrom(c, slot, |PASSES|)
  }

  /** The six passes spelt out: only the first can raise. */
  function SixPasses(c: LineCodec, slot: Slot): Step {
    var s1 := PartialPass(c, slot);
    if s1.raised then s1
    else
      var s2 := OrphanJsonlPass(c, s1.slot);
      var s3 := CompressedPartialPass(c, s2.slot);
      var s4 := MissingManifestPass(c, s3.slot);
      var s5 := PartialManifestPass(s4.slot);
      var s6 := ManifestPass(s5.slot);
      Step(s6.slot, s1.quarantine + s2.quarantine + s3.quarantine + s4.quarantine + s5.quarantine + s6.quarantine,
           false)
  }

  lemma OnlyPartialsRaises(c: LineCodec, pass: Pass, slot: Slot)
    requires pass != Partials
    ensures !PassSlot(c, pass, slot).raised
  {
  }

  lemma NextPass(c: LineCodec, slot: Slot, n: nat)
    requires n < |PASSES| && !RecoverFrom(c, slot, n).raised
    ensures var before := RecoverFrom(c, slot, n);
            var step := PassSlot(c, PASSES[n], before.slot);
            RecoverFrom(c, slot, n + 1) == Step(step.slot, before.quarantine + step.quarantine, step.raised)
    ensures n > 0 ==> !RecoverFrom(c, slot, n + 1).raised
  {
    if n > 0 {
      OnlyPartialsRaises(c, PASSES[n], RecoverFrom(c, slot, n).slot);
    }
  }

  lemma {:induction false} RaisedStays(c: LineCodec, slot: Slot)
    requires RecoverFrom(c, slot, 1).raised
    ensures RecoverSlot(c, slot) == RecoverFrom(c, slot, 1)
  {
    assert RecoverFrom(c, slot, 2) == RecoverFrom(c, slot, 1);
    assert RecoverFrom(c, slot, 3) == RecoverFrom(c, slot, 1);
    assert RecoverFrom(c, slot, 4) == RecoverFrom(c, slot, 1);
    assert RecoverFrom(c, slot, 5) == RecoverFrom(c, slot, 1);
  }

  lemma RecoverIsSixPasses(c: LineCodec, slot: Slot)
    ensures RecoverSlot(c, slot) == SixPasses(c, slot)
  {
    assert RecoverFrom(c, slot, 0) == Unchanged(slot);
    NextPass(c, slot, 0);
    assert RecoverFrom(c, slot, 1) == PartialPass(c, slot);
    if RecoverFrom(c, slot, 1).raised {
      RaisedStays(c, slot);
    } else {
      NextPass(c, slot, 1);
      NextPass(c, slot, 2);
      NextPass(c, slot, 3);
      NextPass(c, slot, 4);
      NextPass(c, slot, 5);
    }
  }

  lemma AfterPartials(c: LineCodec, slot: Slot)
    requires !PartialPass(c, slot).raised
    ensures var t := PartialPass(c, slot).slot;
            t.jsonlPartial == None && (t.jsonl.Some? ==> t.jsonl == slot.jsonl && t.manifest == slot.manifest)
  {
  }

  lemma AfterOrphans(c: LineCodec, slot: Slot)
    requires slot.jsonlPartial == None
    ensures var t := OrphanJsonlPass(c, slot).slot;
            t.jsonlPartial == None && (t.jsonl.Some? ==> t.jsonl == slot.jsonl && slot.manifest.Some?)
  {
  }

  lemma AfterCompressed(c: LineCodec, slot: Slot)
    ensures var t := MissingManifestPass(c, CompressedPartialPass(c, slot).slot).slot;
            t.zstPartial == None && t.jsonl == slot.jsonl && t.jsonlPartial == slot.jsonlPartial
  {
  }

  lemma AfterManifests(slot: Slot)
    ensures var t := ManifestPass(PartialManifestPass(slot).slot).slot;
            && t.manifestPartial == None && (t.manifest.Some? ==> Describes(t.manifest.value, t))
            && t.zstPartial == slot.zstPartial && t.jsonl == slot.jsonl && t.jsonlPartial == slot.jsonlPartial
  {
  }

  /**
   Whatever files it starts from, recovery of a segment that does not raise leaves no partial file, a
   manifest only beside the compressed file it describes, and a JSONL file only beside a manifest that
   was there before.
   */
  lemma RecoveryCleans(c: LineCodec, slot: Slot)
    requires !RecoverSlot(c, slot).raised
    ensures var r := RecoverSlot(c, slot).slot;
            && r.jsonlPartial == None && r.zstPartial == None && r.manifestPartial == None
            && (r.manifest.Some? ==> Describes(r.manifest.value, r))
            && (r.jsonl.Some? ==> slot.manifest.Some? && r.jsonl == slot.jsonl)
  {
    RecoverIsSixPasses(c, slot);
    AfterPartials(c, slot);
    var s1 := PartialPass(c, slot).slot;
    AfterOrphans(c, s1);
    var s2 := OrphanJsonlPass(c, s1).slot;
    AfterCompressed(c, s2);
    AfterManifests(MissingManifestPass(c, CompressedPartialPass(c, s2).slot).slot);
  }

  /** The whole lines of a file, joined again, scan as those lines. */
  lemma {:induction false} JoinedScans(c: LineCodec, b: Bytes)
    requires DecodeAll(c, CutLines(b).lines).Some?
    ensures Scanned(c, Join(CutLines(b).lines), true) == Some(SummaryOf(DecodeAll(c, CutLines(b).lines).value))
    ensures Scanned(c, Join(CutLines(b).lines), true) == Scanned(c, Join(CutLines(b).lines), false)
  {
    JoinedCuts(b);
  }

  lemma RetryRaises(c: LineCodec, slot: Slot)
    requires slot.jsonlPartial.Some?
    ensures RecoverPartial(c, slot).raised <==> slot.zstPartial.Some? && KeepsRecords(c, slot.jsonlPartial.value)
  {
    var lines := CutLines(slot.jsonlPartial.value).lines;
    if DecodeAll(c, lines).Some? {
      JoinedScans(c, slot.jsonlPartial.value);
    }
  }

  /** Every whole line decodes, and there is one. */
  predicate KeepsRecords(c: LineCodec, b: Bytes) {
    DecodeAll(c, CutLines(b).lines).Some? && Join(CutLines(b).lines) != []
  }

  /**
   Exactly when a segment makes recovery raise: a partial JSONL file with a whole record, all of whose lines
   decode, meets a partial compressed file, so that the exclusive open of its finalisation fails.
   */
  lemma RaisesIff(c: LineCodec, slot: Slot)
    ensures RecoverSlot(c, slot).raised <==>
            slot.jsonlPartial.Some? && slot.zstPartial.Some? && KeepsRecords(c, slot.jsonlPartial.value)
  {
    RecoverIsSixPasses(c, slot);
    if slot.jsonlPartial.Some? {
      RetryRaises(c, slot);
    }
  }

  // What becomes of each file, whatever state it is in.

  /** The whole lines of a JSONL file have become a finished segment of their events. */
  predicate FinishedFrom(c: LineCodec, slot: Slot, b: Bytes) {
    var lines := CutLines(b).lines;
    && DecodeAll(c, lines).Some? && Join(lines) != []
    && slot.zst == Some(Compress(Join(lines))) && slot.manifest.Some?
    && var summary := SummaryOf(DecodeAll(c, lines).value);
       && summary.first.Some? && summary.last.Some?
       && slot.manifest == Some(ManifestFor(Compress(Join(lines)), summary))
  }

  lemma {:induction false} RetryFinishes(c: LineCodec, slot: Slot, b: Bytes)
    requires slot.jsonlPartial == Some(b) && KeepsRecords(c, b) && slot.zstPartial.None?
    ensures var r := RecoverPartial(c, slot);
            && !r.raised && r.quarantine == [] && FinishedFrom(c, r.slot, b)
            && r.slot == NO_FILES.(zst := r.slot.zst, manifest := r.slot.manifest)
  {
    JoinedScans(c, b);
    assert b != [];
  }

  lemma FinishedStays(c: LineCodec, slot: Slot)
    requires slot == NO_FILES.(zst := slot.zst, manifest := slot.manifest)
    requires slot.manifest.Some? && Describes(slot.manifest.value, slot)
    ensures OrphanJsonlPass(c, slot) == Unchanged(slot) && CompressedPartialPass(c, slot) == Unchanged(slot)
    ensures MissingManifestPass(c, slot) == Unchanged(slot) && PartialManifestPass(slot) == Unchanged(slot)
    ensures ManifestPass(slot) == Unchanged(slot)
  {
  }

  /**
   A partial JSONL file, in any state: with a broken whole line it goes to quarantine as it is; without one, its whole
   records become a finished segment; and where it has none and no broken line there is nothing to keep.
   */
  lemma {:induction false} PartialKept(c: LineCodec, slot: Slot, b: Bytes)
    requires slot.jsonlPartial == Some(b) && !RecoverSlot(c, slot).raised
    ensures DecodeAll(c, CutLines(b).lines).None? ==> QuarantinedJsonl(b) in RecoverSlot(c, slot).quarantine
    ensures KeepsRecords(c, b) ==> FinishedFrom(c, RecoverSlot(c, slot).slot, b)
  {
    RecoverIsSixPasses(c, slot);
    if KeepsRecords(c, b) {
      RetryRaises(c, slot);
      RetryFinishes(c, slot, b);
      FinishedStays(c, PartialPass(c, slot).slot);
    } else if DecodeAll(c, CutLines(b).lines).None? {
      assert b != [] by {
        assert b == [] ==> CutLines(b).lines == [];
      }
      assert QuarantinedJsonl(b) in PartialPass(c, slot).quarantine;
    }
  }

  /**
   A JSONL file without a manifest: the same, except that where a partial compressed file stands in the way its whole
   records go to quarantine.
   */
  lemma {:induction false} OrphanKept(c: LineCodec, slot: Slot, b: Bytes)
    requires slot.jsonlPartial == None && slot.jsonl == Some(b) && slot.manifest == None
    ensures !RecoverSlot(c, slot).raised
    ensures DecodeAll(c, CutLines(b).lines).None? ==> QuarantinedJsonl(b) in RecoverSlot(c, slot).quarantine
    ensures KeepsRecords(c, b) ==>
              if slot.zstPartial.None? then FinishedFrom(c, RecoverSlot(c, slot).slot, b)
              else QuarantinedJsonl(Join(CutLines(b).lines)) in RecoverSlot(c, slot).quarantine
  {
    RecoverIsSixPasses(c, slot);
    var retried := slot.(jsonlPartial := slot.jsonl, jsonl := None);
    RetryRaises(c, retried);
    if KeepsRecords(c, b) {
      JoinedScans(c, b);
      if slot.zstPartial.None? {
        RetryFinishes(c, retried, b);
        FinishedStays(c, OrphanJsonlPass(c, slot).slot);
      } else {
        assert QuarantinedJsonl(Join(CutLines(b).lines)) in OrphanJsonlPass(c, slot).quarantine;
      }
    } else if DecodeAll(c, CutLines(b).lines).None? {
      assert b != [] by {
        assert b == [] ==> CutLines(b).lines == [];
      }
      assert QuarantinedJsonl(b) in OrphanJsonlPass(c, slot).quarantine;
    }
  }

  /** A compressed file by itself gets a manifest if it reads to its end and holds an event, else quarantine. */
  lemma CompressedKept(c: LineCodec, frame: Frame)
    ensures var r := RecoverSlot(c, NO_FILES.(zst := Some(frame)));
            && !r.raised
            && (if FrameSummary(c, frame).Some? && FrameSummary(c, frame).value.count > 0 then
                  r == Unchanged(NO_FILES.(zst := Some(frame), manifest := r.slot.manifest))
                  && r.slot.manifest == Some(ManifestFor(frame, FrameSummary(c, frame).value))
                else r == Step(NO_FILES, [QuarantinedZst(frame)], false))
  {
    RecoverIsSixPasses(c, NO_FILES.(zst := Some(frame)));
  }

  /** A manifest that is not for the compressed file beside it goes to quarantine; the file stays either way. */
  lemma ManifestKept(c: LineCodec, slot: Slot, doc: Document)
    requires slot == NO_FILES.(zst := slot.zst, manifest := Some(doc))
    ensures RecoverSlot(c, slot) ==
            if doc.Manifest? && slot.zst == Some(doc.sha256) then Unchanged(slot)
            else Step(slot.(manifest := None), [QuarantinedManifest(doc)], false)
  {
    RecoverIsSixPasses(c, slot);
  }

  /** A partial compressed file by itself is published with a manifest on the same terms, else quarantine. */
  lemma CompressedPartialKept(c: LineCodec, frame: Frame)
    ensures RecoverSlot(c, NO_FILES.(zstPartial := Some(frame))) ==
            if FrameSummary(c, frame).Some? && FrameSummary(c, frame).value.count > 0 then
              Unchanged(NO_FILES.(zst := Some(frame),
                                  manifest := Some(ManifestFor(frame, FrameSummary(c, frame).value))))
            else Step(NO_FILES, [QuarantinedZst(frame)], false)
  {
    RecoverIsSixPasses(c, NO_FILES.(zstPartial := Some(frame)));
  }

  /**
   A partial manifest takes its place, over any there is, when it is for the compressed file beside it, and else goes
   to quarantine; a manifest that stays is then treated as above.
   */
  lemma PartialManifestKept(c: LineCodec, slot: Slot, doc: Document)
    requires slot == NO_FILES.(zst := slot.zst, manifest := slot.manifest, manifestPartial := Some(doc))
    requires slot.zst.None? || slot.manifest.Some?
    ensures var bare := slot.(manifestPartial := None);
            RecoverSlot(c, slot) ==
            if doc.Manifest? && slot.zst == Some(doc.sha256) then Unchanged(bare.(manifest := Some(doc)))
            else
              var rest := RecoverSlot(c, bare);
              Step(rest.slot, [QuarantinedManifest(doc)] + rest.quarantine, false)
  {
    RecoverIsSixPasses(c, slot);
    RecoverIsSixPasses(c, slot.(manifestPartial := None));
  }

  /**
   A partial compressed file beside a manifest: one that cannot be read goes to quarantine; any other takes the place
   of the compressed file, and the manifest, which is not written again, stays only if it is for that one.
   */
  lemma CompressedOverOld(c: LineCodec, slot: Slot, frame: Frame, doc: Document)
    requires slot == NO_FILES.(zst := slot.zst, zstPartial := Some(frame), manifest := Some(doc))
    ensures var bare := slot.(zstPartial := None);
            RecoverSlot(c, slot) ==
            if FrameSummary(c, frame).Some? then RecoverSlot(c, bare.(zst := Some(frame)))
            else
              var rest := RecoverSlot(c, bare);
              Step(rest.slot, [QuarantinedZst(frame)] + rest.quarantine, false)
  {
    RecoverIsSixPasses(c, slot);
    RecoverIsSixPasses(c, slot.(zstPartial := None));
    RecoverIsSixPasses(c, slot.(zstPartial := None, zst := Some(frame)));
  }

  // A crash inside `_finalize`.

  /**
   A segment whose partial file holds exactly `part`, about to be finalised: for the first time, or
   again by a recovery that may itself have been cut short after publishing the compressed file.
   */
  ghost predicate ReadyToFinalize(c: LineCodec, slot: Slot, part: seq<Event>) {
    && part != [] && Storable(c, part)
    && slot.jsonlPartial == Some(Encoded(c, part)) && slot.jsonl == None
    && slot.zstPartial == None && slot.manifest == None
    && (slot.zst == None || slot.zst == Some(Compress(Encoded(c, part))))
  }

  /** The files a crash leaves after some step of finalising `part`. */
  ghost predicate CrashedAt(c: LineCodec, slot: Slot, part: seq<Event>, stage: Stage) {
    exists ready: Slot ::
      ReadyToFinalize(c, ready, part) &&
      slot == AtStage(ready, Encoded(c, part), ManifestFor(Compress(Encoded(c, part)), SummaryOf(part)), stage)
  }

  /** Recovering a ready segment finalises it. */
  lemma RecoversReady(c: LineCodec, slot: Slot, part: seq<Event>)
    requires Faithful(c) && ReadyToFinalize(c, slot, part)
    ensures RecoverPartial(c, slot) ==
            Unchanged(FinishedSlot(c, part))
  {
    WholeFile(c, part);
    ScannedWhole(c, part, true);
    ScannedWhole(c, part, false);
    assert Encoded(c, part) != [];
  }

  lemma FinishedIsStable(c: LineCodec, part: seq<Event>, jsonl: Option<Bytes>)
    requires part != []
    ensures var slot := FinishedSlot(c, part).(jsonl := jsonl);
            RecoverSlot(c, slot) == Unchanged(slot) && Settled(c, slot, part)
  {
    RecoverIsSixPasses(c, FinishedSlot(c, part).(jsonl := jsonl));
  }

  /**
   Crash-safe finalisation. A crash between any two steps that leaves no partial compressed file is
   repaired: replay of the recovered segment gives its events exactly once, nothing is quarantined,
   and recovering a second time changes nothing.
   */
  lemma CrashRecovers(c: LineCodec, slot: Slot, part: seq<Event>, stage: Stage)
    requires Faithful(c) && CrashedAt(c, slot, part, stage)
    requires slot.zstPartial == None
    ensures var r := RecoverSlot(c, slot);
            && r.quarantine == [] && !r.raised
            && Settled(c, r.slot, part) && SegmentStream(c, r.slot) == Stream(part, None)
            && RecoverSlot(c, r.slot) == Unchanged(r.slot)
  {
    var ready: Slot :| ReadyToFinalize(c, ready, part) &&
      slot == AtStage(ready, Encoded(c, part), ManifestFor(Compress(Encoded(c, part)), SummaryOf(part)), stage);
    FinishedIsStable(c, part, None);
    FinishedIsStable(c, part, Some(Encoded(c, part)));
    RecoverIsSixPasses(c, slot);
    match stage {
      case Appending =>
        RecoversReady(c, slot, part);
      case Renamed | Published | WritingManifest | ManifestWritten =>
        RecoversReady(c, slot.(jsonlPartial := slot.jsonl, jsonl := None), part);
      case _ =>
    }
    SettledReadsBack(c, RecoverSlot(c, slot).slot, part);
  }

  /** With a partial compressed file in the way, the second pass quarantines the whole JSONL file. */
  lemma {:induction false} BlockedJsonl(c: LineCodec, slot: Slot, part: seq<Event>)
    requires Faithful(c) && Storable(c, part) && part != []
    requires slot.jsonl == Some(Encoded(c, part)) && slot.jsonlPartial == None && slot.manifest == None
    requires slot.zstPartial.Some?
    ensures OrphanJsonlPass(c, slot) == Step(slot.(jsonl := None), [QuarantinedJsonl(Encoded(c, part))], false)
  {
    var b := Encoded(c, part);
    WholeFile(c, part);
    ScannedWhole(c, part, true);
    assert b != [];
    assert slot.(jsonl := None) == slot.(jsonlPartial := None, jsonl := Some(b)).(jsonl := None);
  }

  lemma {:induction false} BlockedRest(c: LineCodec, slot: Slot, part: seq<Event>)
    requires Faithful(c) && Storable(c, part) && part != []
    requires slot.jsonl == Some(Encoded(c, part)) && slot.jsonlPartial == None && slot.manifest == None
    requires slot.zstPartial.Some?
    ensures SixPasses(c, slot).slot == SixPasses(c, slot.(jsonl := None)).slot
    ensures QuarantinedJsonl(Encoded(c, part)) in SixPasses(c, slot).quarantine
  {
    BlockedJsonl(c, slot, part);
    assert PartialPass(c, slot) == Unchanged(slot);
    assert OrphanJsonlPass(c, slot.(jsonl := None)) == Unchanged(slot.(jsonl := None));
  }

  /** The later passes only ever leave a manifest beside a compressed file that was there before. */
  lemma LaterPassesKeep(c: LineCodec, slot: Slot)
    requires slot.jsonlPartial == None && slot.jsonl == None && slot.manifest == None
    ensures var r := SixPasses(c, slot);
            && !r.raised && r.slot.jsonl == None && r.slot.jsonlPartial == None
            && (r.slot.manifest.Some? ==> r.slot.zst.Some? && r.slot.zst in {slot.zst, slot.zstPartial})
  {
  }

  /**
   When a partial compressed file is left behind, the exclusive open of the retry fails. No event is
   lost: the whole JSONL file ends up in quarantine, and a segment stays in the raw tree only for a
   compressed file that was there already; when the copy was complete it is exactly the events.
   */
  lemma {:induction false} CompressedPartialLeft(c: LineCodec, slot: Slot, part: seq<Event>, stage: Stage)
    requires Faithful(c) && CrashedAt(c, slot, part, stage)
    requires slot.zstPartial.Some?
    ensures var r := RecoverSlot(c, slot);
            && !r.raised && QuarantinedJsonl(Encoded(c, part)) in r.quarantine
            && r.slot.jsonl == None && r.slot.jsonlPartial == None
            && (r.slot.manifest.Some? ==> r.slot.zst.Some? && r.slot.zst in {slot.zst, slot.zstPartial})
            && (stage == Compressed ==> Settled(c, r.slot, part))
  {
    BlockedRest(c, slot, part);
    var rest := slot.(jsonl := None);
    LaterPassesKeep(c, rest);
    RecoverIsSixPasses(c, slot);
    if stage == Compressed {
      CopyComplete(c, rest, part);
    }
  }

  lemma {:induction false} CopyComplete(c: LineCodec, slot: Slot, part: seq<Event>)
    requires Faithful(c) && Storable(c, part) && part != []
    requires slot.jsonlPartial == None && slot.jsonl == None && slot.manifest == None
    requires slot.zstPartial == Some(Compress(Encoded(c, part)))
    ensures Settled(c, SixPasses(c, slot).slot, part)
  {
    ScannedWhole(c, part, true);
  }

  /**
   A recovery that is itself cut short can set this up: the second pass renames the JSONL file back before the
   exclusive open fails. The next recovery raises there, and leaves the files of the first crash, which the
   one after repairs.
   */
  lemma {:induction false} CutShortRetryRaises(c: LineCodec, slot: Slot, part: seq<Event>, stage: Stage)
    requires Faithful(c) && CrashedAt(c, slot, part, stage) && slot.zstPartial.Some?
    ensures var renamed := slot.(jsonlPartial := slot.jsonl, jsonl := None);
            RecoverSlot(c, renamed) == Step(slot, [], true)
    ensures !RecoverSlot(c, slot).raised
  {
    CompressedPartialLeft(c, slot, part, stage);
    var renamed := slot.(jsonlPartial := slot.jsonl, jsonl := None);
    WholeFile(c, part);
    ScannedWhole(c, part, true);
    RecoverIsSixPasses(c, renamed);
    assert Encoded(c, part) != [];
    assert renamed.(jsonlPartial := Some(Encoded(c, part))) == renamed;
  }

  /**
   What survives of `part` when a partial compressed file is left: the whole events of an interrupted copy
   that ends after a newline, and otherwise what had been published before.
   */
  function CopyKept(c: LineCodec, slot: Slot, part: seq<Event>): seq<Event>
    requires slot.zstPartial.Some?
  {
    var copy := slot.zstPartial.value;
    if FrameSummary(c, copy).Some? then part[..WholeRecords(c, part, |copy.bytes|)]
    else if slot.zst.Some? then part
    else []
  }

  /** What a copy that scans without an error holds is the encoding of exactly its whole events. */
  lemma {:induction false} ScannedCopy(c: LineCodec, copy: Frame, part: seq<Event>)
    requires Faithful(c) && Storable(c, part) && copy.bytes <= Encoded(c, part) && FrameSummary(c, copy).Some?
    ensures var kept := part[..WholeRecords(c, part, |copy.bytes|)];
            && copy.bytes == Encoded(c, kept) && copy.ending != Corrupt
            && FrameSummary(c, copy) == Some(SummaryOf(kept))
  {
    TornTail(c, part, copy.bytes);
    CutLinesSpell(copy.bytes);
    var lines := CutLines(copy.bytes).lines;
    assert Join(lines) + [] == Join(lines);
  }

  /** Once the JSONL file is out of the way: the third and fourth passes, for each kind of interrupted copy. */
  lemma {:induction false} BrokenCopy(c: LineCodec, slot: Slot, part: seq<Event>)
    requires Faithful(c) && Storable(c, part) && part != [] && slot.manifest == None && slot.zstPartial.Some?
    requires slot.zst == None || slot.zst == Some(Compress(Encoded(c, part)))
    requires FrameSummary(c, slot.zstPartial.value).None?
    ensures var t := MissingManifestPass(c, CompressedPartialPass(c, slot).slot).slot;
            if slot.zst.None? then t == slot.(zstPartial := None)
            else Settled(c, t, part) && t.manifestPartial == None
  {
    ScannedWhole(c, part, true);
  }

  lemma {:induction false} ReadCopy(c: LineCodec, slot: Slot, kept: seq<Event>)
    requires slot.manifest == None && slot.zstPartial.Some? && slot.zstPartial.value.bytes == Encoded(c, kept)
    requires slot.zstPartial.value.ending != Corrupt && FrameSummary(c, slot.zstPartial.value) == Some(SummaryOf(kept))
    ensures var t := MissingManifestPass(c, CompressedPartialPass(c, slot).slot).slot;
            if kept == [] then t == slot.(zst := None, zstPartial := None)
            else Readable(c, t, kept) && t.manifestPartial == None
  {
  }

  /** The last two passes keep a manifest that describes its file, and never set one up without a compressed file. */
  lemma ManifestsKeep(slot: Slot)
    ensures slot.manifestPartial == None && slot.manifest.Some? && Describes(slot.manifest.value, slot) ==>
              ManifestPass(PartialManifestPass(slot).slot).slot == slot
    ensures slot.zst == None ==> ManifestPass(PartialManifestPass(slot).slot).slot.manifest == None
  {
  }

  /** With the JSONL file gone, what is left in the raw tree reads as exactly what survives. */
  lemma {:induction false} CopyRecovers(c: LineCodec, slot: Slot, part: seq<Event>)
    requires Faithful(c) && Storable(c, part) && part != []
    requires slot.jsonlPartial == None && slot.jsonl == None && slot.manifest == None && slot.zstPartial.Some?
    requires slot.zst == None || slot.zst == Some(Compress(Encoded(c, part)))
    requires slot.zstPartial.value.bytes <= Encoded(c, part)
    ensures var t, kept := SixPasses(c, slot).slot, CopyKept(c, slot, part);
            if kept == [] then t.manifest == None else Readable(c, t, kept)
  {
    var copy := slot.zstPartial.value;
    var fourth := MissingManifestPass(c, CompressedPartialPass(c, slot).slot).slot;
    if FrameSummary(c, copy).None? {
      BrokenCopy(c, slot, part);
    } else {
      ScannedCopy(c, copy, part);
      ReadCopy(c, slot, CopyKept(c, slot, part));
    }
    ManifestsKeep(fourth);
    assert SixPasses(c, slot).slot == ManifestPass(PartialManifestPass(fourth).slot).slot;
  }

  /**
   An interrupted copy holds a beginning of the bytes. Recovery then quarantines the whole JSONL file, so no
   event is lost, and leaves in the raw tree a segment that reads as exactly what `CopyKept` says survives.
   */
  lemma {:induction false} InterruptedCopyRecovers(c: LineCodec, slot: Slot, part: seq<Event>, stage: Stage)
    requires Faithful(c) && CrashedAt(c, slot, part, stage)
    requires slot.zstPartial.Some? && slot.zstPartial.value.bytes <= Encoded(c, part)
    ensures var r, kept := RecoverSlot(c, slot), CopyKept(c, slot, part);
            && !r.raised && QuarantinedJsonl(Encoded(c, part)) in r.quarantine && kept <= part
            && (if kept == [] then r.slot.manifest == None else Readable(c, r.slot, kept))
  {
    CrashedFiles(c, slot, part, stage);
    CompressedPartialLeft(c, slot, part, stage);
    BlockedCopyRecovers(c, slot, part);
  }

  /** Of a crash with a partial compressed file: which files are there. */
  lemma {:induction false} CrashedFiles(c: LineCodec, slot: Slot, part: seq<Event>, stage: Stage)
    requires CrashedAt(c, slot, part, stage) && slot.zstPartial.Some?
    ensures Storable(c, part) && part != []
    ensures slot.jsonl == Some(Encoded(c, part)) && slot.jsonlPartial == None && slot.manifest == None
    ensures slot.zst == None || slot.zst == Some(Compress(Encoded(c, part)))
  {
  }

  lemma {:induction false} BlockedCopyRecovers(c: LineCodec, slot: Slot, part: seq<Event>)
    requires Faithful(c) && Storable(c, part) && part != []
    requires slot.jsonl == Some(Encoded(c, part)) && slot.jsonlPartial == None && slot.manifest == None
    requires slot.zst == None || slot.zst == Some(Compress(Encoded(c, part)))
    requires slot.zstPartial.Some? && slot.zstPartial.value.bytes <= Encoded(c, part)
    ensures var t, kept := RecoverSlot(c, slot).slot, CopyKept(c, slot, part);
            if kept == [] then t.manifest == None else Readable(c, t, kept)
  {
    BlockedRest(c, slot, part);
    RecoverIsSixPasses(c, slot);
    CopyRecovers(c, slot.(jsonl := None), part);
    assert CopyKept(c, slot.(jsonl := None), part) == CopyKept(c, slot, part);
  }

  // A crash while appending.

  /** A partial file torn anywhere keeps exactly its whole events; one without any is removed. */
  lemma {:induction false} TornAppendRecovers(c: LineCodec, part: seq<Event>, torn: Bytes)
    requires Faithful(c) && Storable(c, part) && torn <= Encoded(c, part)
    ensures RecoversTo(c, NO_FILES.(jsonlPartial := Some(torn)), part[..WholeRecords(c, part, |torn|)])
  {
    TornTail(c, part, torn);
    KeptRecovers(c, torn, part[..WholeRecords(c, part, |torn|)]);
  }

  lemma {:induction false} KeptRecovers(c: LineCodec, torn: Bytes, kept: seq<Event>)
    requires Faithful(c) && Storable(c, kept)
    requires DecodeAll(c, CutLines(torn).lines) == Some(kept) && Join(CutLines(torn).lines) == Encoded(c, kept)
    ensures RecoversTo(c, NO_FILES.(jsonlPartial := Some(torn)), kept)
  {
    if kept == [] {
      NothingKept(c, torn);
    } else {
      TruncatedRecovers(c, torn, kept);
    }
  }

  /** Recovery quarantines nothing and leaves the files of a finished segment of `kept`, or none. */
  ghost predicate RecoversTo(c: LineCodec, slot: Slot, kept: seq<Event>) {
    RecoverSlot(c, slot) == Unchanged(if kept == [] then NO_FILES else FinishedSlot(c, kept))
  }

  lemma {:induction false} NothingKept(c: LineCodec, torn: Bytes)
    requires DecodeAll(c, CutLines(torn).lines) == Some([]) && Join(CutLines(torn).lines) == []
    ensures RecoversTo(c, NO_FILES.(jsonlPartial := Some(torn)), [])
  {
    RecoverIsSixPasses(c, NO_FILES.(jsonlPartial := Some(torn)));
    assert PartialPass(c, NO_FILES.(jsonlPartial := Some(torn))) == Unchanged(NO_FILES);
  }

  lemma {:induction false} TruncatedRecovers(c: LineCodec, torn: Bytes, kept: seq<Event>)
    requires Faithful(c) && Storable(c, kept) && kept != []
    requires DecodeAll(c, CutLines(torn).lines) == Some(kept) && Join(CutLines(torn).lines) == Encoded(c, kept)
    ensures RecoversTo(c, NO_FILES.(jsonlPartial := Some(torn)), kept)
  {
    TruncatedIsReady(c, torn, kept);
    AfterPartialPass(c, NO_FILES.(jsonlPartial := Some(torn)), FinishedSlot(c, kept));
    FinishedIsStable(c, kept, None);
    assert FinishedSlot(c, kept).(jsonl := None) == FinishedSlot(c, kept);
  }

  lemma AfterPartialPass(c: LineCodec, slot: Slot, next: Slot)
    requires PartialPass(c, slot) == Unchanged(next) && next.jsonlPartial == None
    ensures RecoverSlot(c, slot) == RecoverSlot(c, next)
  {
    RecoverIsSixPasses(c, slot);
    RecoverIsSixPasses(c, next);
  }

  lemma {:induction false} TruncatedIsReady(c: LineCodec, torn: Bytes, kept: seq<Event>)
    requires Faithful(c) && Storable(c, kept) && kept != []
    requires DecodeAll(c, CutLines(torn).lines) == Some(kept) && Join(CutLines(torn).lines) == Encoded(c, kept)
    ensures PartialPass(c, NO_FILES.(jsonlPartial := Some(torn))) == Unchanged(FinishedSlot(c, kept))
  {
    ScannedWhole(c, kept, true);
    FinalizesWhole(c, kept);
    assert Encoded(c, kept) != [] && torn != [];
    assert NO_FILES.(jsonlPartial := Some(torn)).(jsonlPartial := Some(Encoded(c, kept))) == OpenSlot(c, kept);
  }

  // The passes over the whole tree.

  datatype Directories = Directories(raw: Tree, quarantine: seq<Quarantined>)
  datatype Swept = Swept(dirs: Directories, raised: bool)

  function ApplyStep(c: LineCodec, pass: Pass, dirs: Directories, id: SegmentId): Swept
    requires id in dirs.raw
  {
    var step := PassSlot(c, pass, dirs.raw[id]);
    Swept(Directories(dirs.raw[id := step.slot], dirs.quarantine + step.quarantine), step.raised)
  }

  /** One pass: the segments in listed order, stopping where a step raises. */
  function Sweep(c: LineCodec, pass: Pass, dirs: Directories, order: seq<SegmentId>): (r: Swept)
    requires forall id :: id in order ==> id in dirs.raw
    ensures r.dirs.raw.Keys == dirs.raw.Keys
  {
    if order == [] then Swept(dirs, false)
    else
      assert forall id :: id in order[..|order| - 1] ==> id in order;
      var before := Sweep(c, pass, dirs, order[..|order| - 1]);
      if before.raised then before else ApplyStep(c, pass, before.dirs, order[|order| - 1])
  }

  /** `recover_partial_files`, the raw half: the first `n` passes. */
  function Recover(c: LineCodec, dirs: Directories, order: seq<SegmentId>, n: nat): (r: Swept)
    requires n <= |PASSES| && forall id :: id in order ==> id in dirs.raw
    ensures r.dirs.raw.Keys == dirs.raw.Keys
  {
    if n == 0 then Swept(dirs, false)
    else
      var before := Recover(c, dirs, order, n - 1);
      if before.raised then before else Sweep(c, PASSES[n - 1], before.dirs, order)
  }

  class DataDirectory {
    const codec: LineCodec
    var raw: Tree
    var quarantine: seq<Quarantined>

    constructor (codec: LineCodec, raw: Tree)
      ensures this.codec == codec && State() == Directories(raw, [])
    {
      this.codec, this.raw, this.quarantine := codec, raw, [];
    }

    ghost function State(): Directories
      reads this
    {
      Directories(raw, quarantine)
    }

    method RunPass(pass: Pass, order: seq<SegmentId>) returns (raised: bool)
      requires forall id :: id in order ==> id in raw
      modifies this
      ensures Swept(State(), raised) == Sweep(codec, pass, old(State()), order)
    {
      raised := false;
      for k := 0 to |order|
        invariant raw.Keys == old(raw.Keys)
        invariant Swept(State(), false) == Sweep(codec, pass, old(State()), order[..k])
      {
        SweepNext(codec, pass, old(State()), order, k);
        var step := PassSlot(codec, pass, raw[order[k]]);
        raw := raw[order[k] := step.slot];
        quarantine := quarantine + step.quarantine;
        if step.raised {
          SweepStops(codec, pass, old(State()), order, k + 1);
          return true;
        }
      }
      assert order[..|order|] == order;
    }

    method RecoverPartialFiles(order: seq<SegmentId>) returns (raised: bool)
      requires forall id :: id in order ==> id in raw
      modifies this
      ensures Swept(State(), raised) == Recover(codec, old(State()), order, |PASSES|)
    {
      raised := false;
      for k := 0 to |PASSES|
        invariant raw.Keys == old(raw.Keys)
        invariant Swept(State(), false) == Recover(codec, old(State()), order, k)
      {
        RecoverNext(codec, old(State()), order, k);
        raised := RunPass(PASSES[k], order);
        if raised {
          RecoverStops(codec, old(State()), order, k + 1);
          return;
        }
      }
    }
  }

  lemma {:induction false} SweepNext(c: LineCodec, pass: Pass, dirs: Directories, order: seq<SegmentId>, k: nat)
    requires k < |order| && forall id :: id in order ==> id in dirs.raw
    ensures order[k] in dirs.raw
    ensures var before := Sweep(c, pass, dirs, order[..k]);
            Sweep(c, pass, dirs, order[..k + 1]) ==
            if before.raised then before else ApplyStep(c, pass, before.dirs, order[k])
  {
    assert order[..k + 1][..k] == order[..k];
  }

  lemma RecoverNext(c: LineCodec, dirs: Directories, order: seq<SegmentId>, n: nat)
    requires n < |PASSES| && forall id :: id in order ==> id in dirs.raw
    ensures var before := Recover(c, dirs, order, n);
            Recover(c, dirs, order, n + 1) ==
            if before.raised then before else Sweep(c, PASSES[n], before.dirs, order)
  {
  }

  lemma {:induction false} SweepStops(c: LineCodec, pass: Pass, dirs: Directories, order: seq<SegmentId>, k: nat)
    requires k <= |order| && forall id :: id in order ==> id in dirs.raw
    requires Sweep(c, pass, dirs, order[..k]).raised
    ensures Sweep(c, pass, dirs, order) == Sweep(c, pass, dirs, order[..k])
    decreases |order|
  {
    if k == |order| {
      assert order[..k] == order;
    } else {
      assert order[..|order| - 1][..k] == order[..k];
      SweepStops(c, pass, dirs, order[..|order| - 1], k);
    }
  }

  lemma {:induction false} RecoverStops(c: LineCodec, dirs: Directories, order: seq<SegmentId>, n: nat)
    requires n <= |PASSES| && forall id :: id in order ==> id in dirs.raw
    requires Recover(c, dirs, order, n).raised
    ensures Recover(c, dirs, order, |PASSES|) == Recover(c, dirs, order, n)
    decreases |PASSES| - n
  {
    if n < |PASSES| {
      assert Recover(c, dirs, order, n + 1) == Recover(c, dirs, order, n);
      RecoverStops(c, dirs, order, n + 1);
    }
  }

  /** A pass in which no segment's own step raises treats every listed segment by itself. */
  lemma {:induction false} SweepSlots(c: LineCodec, pass: Pass, dirs: Directories, order: seq<SegmentId>)
    requires Distinct(order) && forall id :: id in order ==> id in dirs.raw
    requires forall id :: id in order ==> !PassSlot(c, pass, dirs.raw[id]).raised
    ensures var r := Sweep(c, pass, dirs, order);
            && !r.raised
            && (forall id :: id in dirs.raw ==>
                  r.dirs.raw[id] == if id in order then PassSlot(c, pass, dirs.raw[id]).slot else dirs.raw[id])
            && (forall q :: q in r.dirs.quarantine <==>
                  q in dirs.quarantine || exists id :: id in order && q in PassSlot(c, pass, dirs.raw[id]).quarantine)
  {
    if order != [] {
      var front, last := order[..|order| - 1], order[|order| - 1];
      assert forall id :: id in order <==> id in front || id == last;
      SweepSlots(c, pass, dirs, front);
    }
  }

  ghost predicate Lists(dirs: Directories, order: seq<SegmentId>) {
    Distinct(order) && forall id :: id in order <==> id in dirs.raw
  }

  lemma QuietStep(c: LineCodec, slot: Slot, n: nat)
    requires n < |PASSES| && !RecoverFrom(c, slot, n + 1).raised
    ensures !RecoverFrom(c, slot, n).raised && !PassSlot(c, PASSES[n], RecoverFrom(c, slot, n).slot).raised
  {
  }

  ghost predicate MovedBy(c: LineCodec, raw: Tree, n: nat, q: Quarantined)
    requires n <= |PASSES|
  {
    exists id :: id in raw && q in RecoverFrom(c, raw[id], n).quarantine
  }

  ghost predicate Treated(c: LineCodec, dirs: Directories, r: Swept, n: nat)
    requires n <= |PASSES| && r.dirs.raw.Keys == dirs.raw.Keys
  {
    && !r.raised
    && (forall id :: id in dirs.raw ==> r.dirs.raw[id] == RecoverFrom(c, dirs.raw[id], n).slot)
    && (forall q :: q in r.dirs.quarantine <==> q in dirs.quarantine || MovedBy(c, dirs.raw, n, q))
  }

  lemma {:induction false} TreatedStep(c: LineCodec, dirs: Directories, before: Swept, after: Swept, n: nat)
    requires n < |PASSES| && before.dirs.raw.Keys == dirs.raw.Keys == after.dirs.raw.Keys
    requires Treated(c, dirs, before, n) && !after.raised
    requires forall id :: id in dirs.raw ==> !RecoverFrom(c, dirs.raw[id], n).raised
    requires forall id :: id in dirs.raw ==>
      after.dirs.raw[id] == PassSlot(c, PASSES[n], before.dirs.raw[id]).slot
    requires forall q :: q in after.dirs.quarantine <==>
      (q in before.dirs.quarantine ||
       exists id :: id in dirs.raw && q in PassSlot(c, PASSES[n], before.dirs.raw[id]).quarantine)
    ensures Treated(c, dirs, after, n + 1)
  {
    forall id | id in dirs.raw
      ensures var step := PassSlot(c, PASSES[n], before.dirs.raw[id]);
              RecoverFrom(c, dirs.raw[id], n + 1) ==
              Step(step.slot, RecoverFrom(c, dirs.raw[id], n).quarantine + step.quarantine, step.raised)
    {
    }
    forall q ensures q in after.dirs.quarantine <==> q in dirs.quarantine || MovedBy(c, dirs.raw, n + 1, q) {
      if q in before.dirs.quarantine && q !in dirs.quarantine {
        var id :| id in dirs.raw && q in RecoverFrom(c, dirs.raw[id], n).quarantine;
        assert q in RecoverFrom(c, dirs.raw[id], n + 1).quarantine;
      } else if id :| id in dirs.raw && q in PassSlot(c, PASSES[n], before.dirs.raw[id]).quarantine {
        assert q in RecoverFrom(c, dirs.raw[id], n + 1).quarantine;
      }
    }
  }

  ghost predicate AllQuiet(c: LineCodec, raw: Tree, n: nat)
    requires n <= |PASSES|
  {
    forall id :: id in raw ==> !RecoverFrom(c, raw[id], n).raised
  }

  lemma QuietNext(c: LineCodec, raw: Tree, n: nat)
    requires n < |PASSES| && AllQuiet(c, raw, n + 1)
    ensures AllQuiet(c, raw, n)
    ensures forall id :: id in raw ==> !PassSlot(c, PASSES[n], RecoverFrom(c, raw[id], n).slot).raised
  {
    forall id | id in raw
      ensures !RecoverFrom(c, raw[id], n).raised
      ensures !PassSlot(c, PASSES[n], RecoverFrom(c, raw[id], n).slot).raised
    {
      QuietStep(c, raw[id], n);
    }
  }

  lemma {:induction false} SweepTreats(c: LineCodec, dirs: Directories, before: Swept, order: seq<SegmentId>, n: nat)
    requires n < |PASSES| && Lists(dirs, order) && before.dirs.raw.Keys == dirs.raw.Keys
    requires Treated(c, dirs, before, n) && AllQuiet(c, dirs.raw, n + 1)
    ensures Treated(c, dirs, Sweep(c, PASSES[n], before.dirs, order), n + 1)
  {
    QuietNext(c, dirs.raw, n);
    SweepSlots(c, PASSES[n], before.dirs, order);
    TreatedStep(c, dirs, before, Sweep(c, PASSES[n], before.dirs, order), n);
  }

  lemma {:induction false} RecoverSlots(c: LineCodec, dirs: Directories, order: seq<SegmentId>, n: nat)
    requires n <= |PASSES| && Lists(dirs, order) && AllQuiet(c, dirs.raw, n)
    ensures Treated(c, dirs, Recover(c, dirs, order, n), n)
  {
    if n == 0 {
      assert forall id :: id in dirs.raw ==> RecoverFrom(c, dirs.raw[id], 0) == Unchanged(dirs.raw[id]);
    } else {
      QuietNext(c, dirs.raw, n - 1);
      RecoverSlots(c, dirs, order, n - 1);
      RecoverSlotsNext(c, dirs, order, n - 1);
    }
  }

  lemma RecoverSlotsNext(c: LineCodec, dirs: Directories, order: seq<SegmentId>, n: nat)
    requires n < |PASSES| && Lists(dirs, order) && AllQuiet(c, dirs.raw, n + 1)
    requires Treated(c, dirs, Recover(c, dirs, order, n), n)
    ensures Treated(c, dirs, Recover(c, dirs, order, n + 1), n + 1)
  {
    SweepTreats(c, dirs, Recover(c, dirs, order, n), order, n);
    RecoverNext(c, dirs, order, n);
  }

  /**
   Recovery of the whole tree is recovery of each segment by itself: unless one of them makes it
   raise, every segment ends as its own six passes leave it, and the quarantine gains exactly what
   those moved there.
   */
  lemma {:induction false} RecoversEverySegment(c: LineCodec, dirs: Directories, order: seq<SegmentId>)
    requires Lists(dirs, order)
    requires forall id :: id in dirs.raw ==> !RecoverSlot(c, dirs.raw[id]).raised
    ensures var r := Recover(c, dirs, order, |PASSES|);
            && !r.raised
            && (forall id :: id in dirs.raw ==> r.dirs.raw[id] == RecoverSlot(c, dirs.raw[id]).slot)
            && (forall q :: q in r.dirs.quarantine <==>
                  q in dirs.quarantine || exists id :: id in dirs.raw && q in RecoverSlot(c, dirs.raw[id]).quarantine)
  {
    RecoverSlots(c, dirs, order, |PASSES|);
  }

  // A crash of the writing process, recovered and replayed.

  /**
   What a crash may leave of an open segment holding `part`: its partial file torn anywhere, or the files of
   some step of its finalisation, where a partial compressed file holds a beginning of the bytes. `kept` is
   what survives in the raw tree.
   */
  ghost predicate OpenAfterCrash(c: LineCodec, slot: Slot, part: seq<Event>, kept: seq<Event>) {
    || (exists torn: Bytes :: torn <= Encoded(c, part) && slot == NO_FILES.(jsonlPartial := Some(torn)) &&
          kept == part[..WholeRecords(c, part, |torn|)])
    || (exists stage: Stage :: CrashedAt(c, slot, part, stage) && KeptAt(c, slot, part, kept))
  }

  ghost predicate KeptAt(c: LineCodec, slot: Slot, part: seq<Event>, kept: seq<Event>) {
    if slot.zstPartial.None? then kept == part
    else slot.zstPartial.value.bytes <= Encoded(c, part) && kept == CopyKept(c, slot, part)
  }

  /** The tree after a crash of a process whose store was `st`; finished segments are as they were. */
  ghost predicate AfterCrash(c: LineCodec, st: Store, parts: Parts, tree: Tree, kept: Parts) {
    && tree.Keys == st.tree.Keys && kept.Keys == parts.Keys
    && (forall id :: id in st.tree && id in parts ==>
          if IsOpen(st, id) then OpenAfterCrash(c, tree[id], parts[id], kept[id])
          else tree[id] == st.tree[id] && kept[id] == parts[id])
  }

  /**
   A recovered segment reads as its surviving events, or has no manifest when none survive. Where a partial
   compressed file was left the whole JSONL file is in quarantine; elsewhere nothing is.
   */
  ghost predicate Survives(c: LineCodec, slot: Slot, part: seq<Event>, kept: seq<Event>) {
    var r := RecoverSlot(c, slot);
    && !r.raised && kept <= part
    && (if kept == [] then r.slot.manifest == None else Readable(c, r.slot, kept))
    && (if slot.zstPartial.Some? then QuarantinedJsonl(Encoded(c, part)) in r.quarantine else r.quarantine == [])
  }

  lemma OpenSurvives(c: LineCodec, slot: Slot, part: seq<Event>, kept: seq<Event>)
    requires Faithful(c) && Storable(c, part) && part != [] && OpenAfterCrash(c, slot, part, kept)
    ensures Survives(c, slot, part, kept)
  {
    if torn: Bytes :| torn <= Encoded(c, part) && slot == NO_FILES.(jsonlPartial := Some(torn)) &&
                      kept == part[..WholeRecords(c, part, |torn|)] {
      TornAppendRecovers(c, part, torn);
    } else {
      var stage: Stage :| CrashedAt(c, slot, part, stage) && KeptAt(c, slot, part, kept);
      if slot.zstPartial.None? {
        CrashRecovers(c, slot, part, stage);
      } else {
        InterruptedCopyRecovers(c, slot, part, stage);
      }
    }
  }

  lemma FinishedSurvives(c: LineCodec, part: seq<Event>)
    requires part != []
    ensures Survives(c, FinishedSlot(c, part), part, part)
  {
    FinishedIsStable(c, part, None);
    assert FinishedSlot(c, part).(jsonl := None) == FinishedSlot(c, part);
  }

  ghost predicate Prefixes(kept: Parts, parts: Parts)
    requires kept.Keys == parts.Keys
  {
    forall id :: id in parts ==> kept[id] <= parts[id]
  }

  ghost predicate RecoveredTo(c: LineCodec, raw: Tree, kept: Parts) {
    forall id :: id in raw && id in kept ==>
      if kept[id] == [] then raw[id].manifest == None else Readable(c, raw[id], kept[id])
  }

  /**
   Nothing is lost: wherever a partial compressed file was left, the whole JSONL file is in quarantine; and
   where none was left anywhere, nothing is quarantined.
   */
  ghost predicate NothingLost(c: LineCodec, tree: Tree, parts: Parts, quarantine: seq<Quarantined>) {
    && (forall id :: id in tree && id in parts && tree[id].zstPartial.Some? ==>
          QuarantinedJsonl(Encoded(c, parts[id])) in quarantine)
    && ((forall id :: id in tree ==> tree[id].zstPartial.None?) ==> quarantine == [])
  }

  lemma KeysAgree(c: LineCodec, st: Store, parts: Parts)
    requires FilesMatch(c, st, parts)
    ensures st.tree.Keys == parts.Keys
  {
    assert forall id :: id in st.tree.Keys <==> id in parts.Keys;
  }

  ghost predicate AllSurvive(c: LineCodec, tree: Tree, parts: Parts, kept: Parts)
    requires kept.Keys == parts.Keys == tree.Keys
  {
    forall id :: id in tree ==> Survives(c, tree[id], parts[id], kept[id])
  }

  lemma EachSurvives(c: LineCodec, rotateBytes: int, st: Store, parts: Parts, log: seq<Event>,
                     tree: Tree, kept: Parts)
    requires Faithful(c) && Recorded(c, rotateBytes, st, parts, log) && AfterCrash(c, st, parts, tree, kept)
    ensures tree.Keys == kept.Keys == parts.Keys
    ensures Prefixes(kept, parts) && AllSurvive(c, tree, parts, kept)
  {
    KeysAgree(c, st, parts);
    forall id | id in parts ensures Survives(c, tree[id], parts[id], kept[id]) {
      assert FileMatches(c, st, id, parts[id]);
      if IsOpen(st, id) {
        OpenSurvives(c, tree[id], parts[id], kept[id]);
      } else {
        FinishedSurvives(c, parts[id]);
      }
    }
  }

  lemma PrefixSound(c: LineCodec, part: seq<Event>, kept: seq<Event>)
    requires kept <= part && Storable(c, part) && Increasing(part)
    ensures Storable(c, kept) && Increasing(kept)
  {
  }

  lemma PrefixesBefore(a: seq<Event>, b: seq<Event>, keptA: seq<Event>, keptB: seq<Event>)
    requires AllBefore(a, b) && keptA <= a && keptB <= b
    ensures AllBefore(keptA, keptB)
  {
  }

  /** Parts of one directory follow one another in number, one way or the other. */
  lemma SurvivorsOrdered(st: Store, parts: Parts, kept: Parts, a: SegmentId, b: SegmentId)
    requires PartsFollow(st, parts) && a in parts && b in parts && a in kept && b in kept
    requires kept[a] <= parts[a] && kept[b] <= parts[b] && a != b && a.dir == b.dir
    ensures AllBefore(kept[a], kept[b]) || AllBefore(kept[b], kept[a])
  {
    if AllBefore(parts[a], parts[b]) {
      PrefixesBefore(parts[a], parts[b], kept[a], kept[b]);
    } else {
      PrefixesBefore(parts[b], parts[a], kept[b], kept[a]);
    }
  }

  lemma SurvivorsApart(c: LineCodec, rotateBytes: int, st: Store, parts: Parts, kept: Parts, a: SegmentId, b: SegmentId)
    requires PartsSound(c, rotateBytes, parts) && PartsFollow(st, parts)
    requires a in parts && b in parts && a in kept && b in kept && a != b
    requires kept[a] <= parts[a] && kept[b] <= parts[b]
    ensures forall e :: e in kept[a] ==> e !in kept[b]
  {
    forall e | e in kept[a] ensures e !in kept[b] {
      PartsDisjoint(c, rotateBytes, st, parts, a, b, e);
    }
  }

  /** Prefixes of sound parts that follow one another, each readable, are an archive. */
  lemma SurvivorsAreArchive(c: LineCodec, rotateBytes: int, st: Store, parts: Parts, kept: Parts,
                            tree: Tree, listing: seq<SegmentId>)
    requires PartsSound(c, rotateBytes, parts) && PartsFollow(st, parts) && kept.Keys == parts.Keys
    requires forall id :: id in parts ==> kept[id] <= parts[id]
    requires ListsManifests(tree, listing)
    requires forall id :: id in listing ==> id in kept && Readable(c, tree[id], kept[id])
    ensures Archive(c, tree, listing, kept)
  {
    forall id | id in listing ensures Storable(c, kept[id]) && Increasing(kept[id]) {
      PrefixSound(c, parts[id], kept[id]);
    }
    forall a, b | a in listing && b in listing && a != b && a.dir == b.dir
      ensures AllBefore(kept[a], kept[b]) || AllBefore(kept[b], kept[a])
    {
      SurvivorsOrdered(st, parts, kept, a, b);
    }
    forall a, b, e | a in listing && b in listing && a != b && e in kept[a] ensures e !in kept[b] {
      SurvivorsApart(c, rotateBytes, st, parts, kept, a, b);
    }
  }

  /**
   Crash, recover, replay. Let a process crash while it writes a run, each open segment torn anywhere or
   caught in any step of its finalisation, an interrupted compressed copy included. Recovery then never
   raises and loses nothing: a segment keeps its surviving events, and where an interrupted copy stood in the
   way its whole JSONL file is in quarantine. And whenever the surviving events make up a consecutive run,
   reading the recovered directory gives exactly that run: all of it, once, in order.
   */
  lemma {:induction false} CrashRecoverReplay(
      c: LineCodec, rotateBytes: int, st: Store, parts: Parts, log: seq<Event>,
      tree: Tree, kept: Parts, order: seq<SegmentId>, listing: seq<SegmentId>, run: seq<Event>)
    requires Faithful(c) && Recorded(c, rotateBytes, st, parts, log) && AfterCrash(c, st, parts, tree, kept)
    requires Lists(Directories(tree, []), order)
    requires ListsManifests(Recover(c, Directories(tree, []), order, |PASSES|).dirs.raw, listing)
    requires Consecutive(run) && Covers(kept, run)
    ensures var r := Recover(c, Directories(tree, []), order, |PASSES|);
            && !r.raised && NothingLost(c, tree, parts, r.dirs.quarantine)
            && ReadRawEvents(c, r.dirs.raw, listing) == Stream(run, None)
  {
    AfterCrashRecovered(c, rotateBytes, st, parts, log, tree, kept, order);
    RecoveredReadsBack(c, rotateBytes, st, parts, kept,
                       Recover(c, Directories(tree, []), order, |PASSES|).dirs.raw, listing, run);
  }

  /**
   And when the surviving events are not one consecutive run (a torn segment lost an event that a later
   one of another stream outlived), replay reports it: the recovered directory reads to the end without
   an integrity error exactly when they are.
   */
  lemma {:induction false} CrashGapReported(c: LineCodec, rotateBytes: int, st: Store, parts: Parts, log: seq<Event>,
                                            tree: Tree, kept: Parts, order: seq<SegmentId>, listing: seq<SegmentId>)
    requires Faithful(c) && Recorded(c, rotateBytes, st, parts, log) && AfterCrash(c, st, parts, tree, kept)
    requires Lists(Directories(tree, []), order)
    requires ListsManifests(Recover(c, Directories(tree, []), order, |PASSES|).dirs.raw, listing)
    ensures ReadRawEvents(c, Recover(c, Directories(tree, []), order, |PASSES|).dirs.raw, listing).error == None <==>
            exists run :: Consecutive(run) && Covers(kept, run)
  {
    AfterCrashRecovered(c, rotateBytes, st, parts, log, tree, kept, order);
    var raw := Recover(c, Directories(tree, []), order, |PASSES|).dirs.raw;
    SurvivorsListed(c, rotateBytes, st, parts, kept, raw, listing);
    ArchiveCompletesIff(c, raw, listing, kept);
    if run :| Consecutive(run) && Covers(kept, run) {
      assert MakesUp(listing, kept, run);
    }
    if run :| Consecutive(run) && MakesUp(listing, kept, run) {
      assert Covers(kept, run);
    }
  }

  /** The survivors are an archive, and listing the manifests misses no survivor. */
  lemma SurvivorsListed(c: LineCodec, rotateBytes: int, st: Store, parts: Parts, kept: Parts,
                        raw: Tree, listing: seq<SegmentId>)
    requires PartsSound(c, rotateBytes, parts) && PartsFollow(st, parts)
    requires kept.Keys == parts.Keys == raw.Keys && Prefixes(kept, parts)
    requires RecoveredTo(c, raw, kept) && ListsManifests(raw, listing)
    ensures Archive(c, raw, listing, kept)
    ensures forall e, id :: id in kept && e in kept[id] ==> id in listing
  {
    SurvivorsAreArchive(c, rotateBytes, st, parts, kept, raw, listing);
  }

  lemma {:induction false} AfterCrashRecovered(c: LineCodec, rotateBytes: int, st: Store, parts: Parts, log: seq<Event>,
                                               tree: Tree, kept: Parts, order: seq<SegmentId>)
    requires Faithful(c) && Recorded(c, rotateBytes, st, parts, log) && AfterCrash(c, st, parts, tree, kept)
    requires Lists(Directories(tree, []), order)
    ensures tree.Keys == parts.Keys && Prefixes(kept, parts)
    ensures var r := Recover(c, Directories(tree, []), order, |PASSES|);
            !r.raised && NothingLost(c, tree, parts, r.dirs.quarantine) && RecoveredTo(c, r.dirs.raw, kept)
  {
    EachSurvives(c, rotateBytes, st, parts, log, tree, kept);
    AllRecovered(c, tree, parts, kept, order);
  }

  lemma RecoveredReadsBack(c: LineCodec, rotateBytes: int, st: Store, parts: Parts, kept: Parts,
                           raw: Tree, listing: seq<SegmentId>, run: seq<Event>)
    requires Faithful(c) && PartsSound(c, rotateBytes, parts) && PartsFollow(st, parts)
    requires kept.Keys == parts.Keys == raw.Keys && Prefixes(kept, parts)
    requires RecoveredTo(c, raw, kept)
    requires ListsManifests(raw, listing) && Consecutive(run) && Covers(kept, run)
    ensures ReadRawEvents(c, raw, listing) == Stream(run, None)
  {
    SurvivorsAreArchive(c, rotateBytes, st, parts, kept, raw, listing);
    forall e ensures e in run <==> exists id :: id in listing && e in kept[id] {
      if id :| id in kept && e in kept[id] {
        assert id in listing;
      }
    }
    ArchiveReadsBack(c, raw, listing, kept, run);
  }

  /** When every segment survives, so does the tree: readable where events survive, without a manifest elsewhere. */
  lemma {:induction false} AllRecovered(c: LineCodec, tree: Tree, parts: Parts, kept: Parts, order: seq<SegmentId>)
    requires Lists(Directories(tree, []), order) && kept.Keys == parts.Keys == tree.Keys
    requires AllSurvive(c, tree, parts, kept)
    ensures var r := Recover(c, Directories(tree, []), order, |PASSES|);
            && !r.raised && NothingLost(c, tree, parts, r.dirs.quarantine)
            && RecoveredTo(c, r.dirs.raw, kept)
  {
    forall id | id in tree ensures !RecoverSlot(c, tree[id]).raised {
      assert Survives(c, tree[id], parts[id], kept[id]);
    }
    RecoversEverySegment(c, Directories(tree, []), order);
    var r := Recover(c, Directories(tree, []), order, |PASSES|);
    forall id | id in tree
      ensures if kept[id] == [] then r.dirs.raw[id].manifest == None else Readable(c, r.dirs.raw[id], kept[id])
      ensures tree[id].zstPartial.Some? ==> QuarantinedJsonl(Encoded(c, parts[id])) in r.dirs.quarantine
      ensures tree[id].zstPartial.None? ==> RecoverSlot(c, tree[id]).quarantine == []
    {
      assert Survives(c, tree[id], parts[id], kept[id]);
    }
    if forall id :: id in tree ==> tree[id].zstPartial.None? {
      assert r.dirs.quarantine != [] ==> r.dirs.quarantine[0] in r.dirs.quarantine;
    }
  }
}
