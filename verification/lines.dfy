/**
 Newline-terminated JSONL as bytes: how a raw file is cut into lines, decoded and summarised.
 The text of one event is left to a codec; EventJson supplies one.
 */
module Lines {
  import opened Wrappers
  import opened Models

  type Byte = bv8
  type Bytes = seq<Byte>

  const NEWLINE: Byte := 10

  /** The text of one event, without the newline that ends its line, and the events it is meant for. */
  datatype LineCodec = LineCodec(encode: Event -> Bytes, decode: Bytes -> Option<Event>, storable: Event -> bool)

  ghost predicate Faithful(c: LineCodec) {
    forall e: Event {:trigger c.encode(e)} | c.storable(e) ::
      c.decode(c.encode(e)) == Some(e) && NEWLINE !in c.encode(e)
  }

  ghost predicate Storable(c: LineCodec, events: seq<Event>) {
    forall i :: 0 <= i < |events| ==> c.storable(events[i])
  }

  function Line(c: LineCodec, e: Event): Bytes {
    c.encode(e) + [NEWLINE]
  }

  function Encoded(c: LineCodec, events: seq<Event>): Bytes {
    if events == [] then [] else Line(c, events[0]) + Encoded(c, events[1..])
  }

  // Cutting bytes into lines.

  /** `lines` are the terminated lines without their newline, `tail` what follows the last one. */
  datatype Cut = Cut(lines: seq<Bytes>, tail: Bytes)

  function FirstNewline(b: Bytes): (k: nat)
    ensures k <= |b| && NEWLINE !in b[..k]
    ensures k < |b| ==> b[k] == NEWLINE
  {
    if b == [] || b[0] == NEWLINE then 0
    else
      var k := FirstNewline(b[1..]);
      assert b[..k + 1] == [b[0]] + b[1..][..k];
      k + 1
  }

  function CutLines(b: Bytes): (cut: Cut)
    ensures b == [] <==> cut == Cut([], [])
    ensures NEWLINE !in cut.tail
  {
    var k := FirstNewline(b);
    if k == |b| then
      assert b[..k] == b;
      Cut([], b)
    else
      var rest := CutLines(b[k + 1..]);
      Cut([b[..k]] + rest.lines, rest.tail)
  }

  function Join(lines: seq<Bytes>): Bytes {
    if lines == [] then [] else lines[0] + [NEWLINE] + Join(lines[1..])
  }

  function DecodeAll(c: LineCodec, lines: seq<Bytes>): (r: Option<seq<Event>>)
    ensures r.Some? ==> |r.value| == |lines|
  {
    if lines == [] then Some([])
    else
      var e :- c.decode(lines[0]);
      var rest :- DecodeAll(c, lines[1..]);
      Some([e] + rest)
  }

  lemma {:induction false} JoinCons(line: Bytes, lines: seq<Bytes>, tail: Bytes)
    ensures Join([line] + lines) + tail == line + [NEWLINE] + (Join(lines) + tail)
  {
    assert ([line] + lines)[1..] == lines;
  }

  lemma SplitAround(b: Bytes, k: nat)
    requires k < |b| && b[k] == NEWLINE
    ensures b == b[..k] + [NEWLINE] + b[k + 1..]
  {
  }

  /** Cutting loses nothing: the lines and the tail spell the bytes back. */
  lemma {:induction false} CutLinesSpell(b: Bytes)
    ensures Join(CutLines(b).lines) + CutLines(b).tail == b
  {
    var k := FirstNewline(b);
    if k < |b| {
      var rest := CutLines(b[k + 1..]);
      CutLinesSpell(b[k + 1..]);
      JoinCons(b[..k], rest.lines, rest.tail);
      SplitAround(b, k);
    }
  }

  lemma {:induction false} FirstNewlineAt(b: Bytes, k: nat)
    requires k < |b| && b[k] == NEWLINE && NEWLINE !in b[..k]
    ensures FirstNewline(b) == k
  {
    if k > 0 {
      assert b[..k][0] == b[0];
      assert b[1..][..k - 1] == b[..k][1..];
      FirstNewlineAt(b[1..], k - 1);
    }
  }

  lemma {:induction false} CutLinesStep(line: Bytes, rest: Bytes)
    requires NEWLINE !in line
    ensures CutLines(line + [NEWLINE] + rest) ==
            Cut([line] + CutLines(rest).lines, CutLines(rest).tail)
  {
    var b := line + [NEWLINE] + rest;
    assert b[..|line|] == line;
    FirstNewlineAt(b, |line|);
    assert b[|line| + 1..] == rest;
  }

  /** Cutting a file into lines and joining its whole lines again gives a file of just those lines. */
  lemma {:induction false} JoinedCuts(b: Bytes)
    ensures CutLines(Join(CutLines(b).lines)) == Cut(CutLines(b).lines, [])
  {
    var k := FirstNewline(b);
    if k < |b| {
      var rest := CutLines(b[k + 1..]);
      JoinedCuts(b[k + 1..]);
      CutLinesStep(b[..k], Join(rest.lines));
    }
  }

  lemma {:induction false} EncodedAppend(c: LineCodec, a: seq<Event>, b: seq<Event>)
    ensures Encoded(c, a + b) == Encoded(c, a) + Encoded(c, b)
  {
    if a == [] {
      assert a + b == b;
    } else {
      EncodedAppend(c, a[1..], b);
      assert (a + b)[1..] == a[1..] + b;
    }
  }

  // Torn files.

  /** How many whole records of `events` fit in the first `n` bytes of their encoding. */
  function WholeRecords(c: LineCodec, events: seq<Event>, n: nat): (k: nat)
    ensures k <= |events|
  {
    if events == [] || n < |Line(c, events[0])| then 0
    else 1 + WholeRecords(c, events[1..], n - |Line(c, events[0])|)
  }

  /** That many records do fit, and one more would not. */
  lemma {:induction false} WholeRecordsLongest(c: LineCodec, events: seq<Event>, n: nat)
    ensures var k := WholeRecords(c, events, n);
            && |Encoded(c, events[..k])| <= n
            && (k < |events| ==> n < |Encoded(c, events[..k + 1])|)
  {
    if events == [] {
    } else if n < |Line(c, events[0])| {
      assert events[..1] == [events[0]] && events[..1][1..] == [];
    } else {
      WholeRecordsLongest(c, events[1..], n - |Line(c, events[0])|);
      var k := WholeRecords(c, events[1..], n - |Line(c, events[0])|);
      assert events[..k + 1][1..] == events[1..][..k];
      assert k + 1 < |events| ==> events[..k + 2][1..] == events[1..][..k + 1];
    }
  }

  /**
   Any byte prefix of the encoding of e1..en, however it was torn, is cut into exactly the longest
   prefix of whole events, and the complete lines are that prefix's own encoding.
   */
  lemma {:induction false} TornTail(c: LineCodec, events: seq<Event>, torn: Bytes)
    requires Faithful(c) && Storable(c, events)
    requires torn <= Encoded(c, events)
    ensures var kept := events[..WholeRecords(c, events, |torn|)];
            && DecodeAll(c, CutLines(torn).lines) == Some(kept)
            && Join(CutLines(torn).lines) == Encoded(c, kept)
  {
    if events == [] {
    } else if |torn| < |Line(c, events[0])| {
      assert torn == c.encode(events[0])[..|torn|];
      assert FirstNewline(torn) == |torn|;
    } else {
      var line := c.encode(events[0]);
      var rest := torn[|line| + 1..];
      PrefixSplit(line + [NEWLINE], Encoded(c, events[1..]), torn);
      TornTail(c, events[1..], rest);
      CutLinesStep(line, rest);
      TornTailStep(c, events, rest);
    }
  }

  lemma PrefixSplit(head: Bytes, rest: Bytes, b: Bytes)
    requires b <= head + rest && |head| <= |b|
    ensures b == head + b[|head|..] && b[|head|..] <= rest
  {
  }

  lemma {:induction false} ConsDecodes(c: LineCodec, e: Event, lines: seq<Bytes>, kept: seq<Event>)
    requires Faithful(c) && c.storable(e)
    requires DecodeAll(c, lines) == Some(kept) && Join(lines) == Encoded(c, kept)
    ensures DecodeAll(c, [c.encode(e)] + lines) == Some([e] + kept)
    ensures Join([c.encode(e)] + lines) == Encoded(c, [e] + kept)
  {
    assert ([c.encode(e)] + lines)[1..] == lines && ([e] + kept)[1..] == kept;
  }

  lemma {:induction false} OneMoreRecord(c: LineCodec, events: seq<Event>, n: nat)
    requires events != []
    ensures WholeRecords(c, events, |Line(c, events[0])| + n) == 1 + WholeRecords(c, events[1..], n)
  {
  }

  lemma {:induction false} TornTailStep(c: LineCodec, events: seq<Event>, rest: Bytes)
    requires events != [] && Faithful(c) && Storable(c, events)
    requires var kept := events[1..][..WholeRecords(c, events[1..], |rest|)];
             && DecodeAll(c, CutLines(rest).lines) == Some(kept)
             && Join(CutLines(rest).lines) == Encoded(c, kept)
    ensures var lines := [c.encode(events[0])] + CutLines(rest).lines;
            var kept := events[..WholeRecords(c, events, |Line(c, events[0]) + rest|)];
            && DecodeAll(c, lines) == Some(kept) && Join(lines) == Encoded(c, kept)
  {
    var k := WholeRecords(c, events[1..], |rest|);
    OneMoreRecord(c, events, |rest|);
    ConsDecodes(c, events[0], CutLines(rest).lines, events[1..][..k]);
    assert events[..k + 1] == [events[0]] + events[1..][..k];
    assert |Line(c, events[0]) + rest| == |Line(c, events[0])| + |rest|;
  }

  lemma {:induction false} AllFit(c: LineCodec, events: seq<Event>)
    ensures WholeRecords(c, events, |Encoded(c, events)|) == |events|
  {
    if events != [] {
      AllFit(c, events[1..]);
    }
  }

  /** An intact encoding is cut and decoded back in full, with nothing left over. */
  lemma {:induction false} WholeFile(c: LineCodec, events: seq<Event>)
    requires Faithful(c) && Storable(c, events)
    ensures DecodeAll(c, CutLines(Encoded(c, events)).lines) == Some(events)
    ensures Join(CutLines(Encoded(c, events)).lines) == Encoded(c, events)
    ensures CutLines(Encoded(c, events)).tail == []
  {
    var b := Encoded(c, events);
    AllFit(c, events);
    TornTail(c, events, b);
    assert events[..|events|] == events;
    CutLinesSpell(b);
  }

  // What a scan records about a file.

  /** Event count with the first and last ingest numbers, as stored in a manifest. */
  datatype Summary = Summary(count: nat, first: Option<int>, last: Option<int>)

  function SummaryOf(events: seq<Event>): Summary {
    if events == [] then Summary(0, None, None)
    else Summary(|events|, Some(events[0].number), Some(events[|events| - 1].number))
  }

  /**
   The scan both validators share: read lines one after the other, decode each, keep a count and
   the first and last numbers. `terminated` is whether a last line without a newline is an error;
   where it is not, that line is decoded like the others.
   */
  function Scanned(c: LineCodec, b: Bytes, terminated: bool): (r: Option<Summary>)
    ensures r.Some? && r.value.count > 0 ==> r.value.first.Some? && r.value.last.Some?
    ensures r.Some? ==> (r.value.count == 0 <==> b == [])
  {
    var cut := CutLines(b);
    if cut.tail != [] && terminated then None
    else
      var events :- DecodeAll(c, if cut.tail == [] then cut.lines else cut.lines + [cut.tail]);
      Some(SummaryOf(events))
  }

  lemma {:induction false} DecodeAllFails(c: LineCodec, lines: seq<Bytes>, i: nat)
    requires i < |lines| && c.decode(lines[i]).None?
    ensures DecodeAll(c, lines).None?
  {
    if i > 0 {
      DecodeAllFails(c, lines[1..], i - 1);
    }
  }

  lemma {:induction false} DecodeAllAt(c: LineCodec, lines: seq<Bytes>)
    requires forall i :: 0 <= i < |lines| ==> c.decode(lines[i]).Some?
    ensures DecodeAll(c, lines).Some?
    ensures forall i :: 0 <= i < |lines| ==> DecodeAll(c, lines).value[i] == c.decode(lines[i]).value
  {
    if lines != [] {
      DecodeAllAt(c, lines[1..]);
    }
  }

  method ScanJsonl(c: LineCodec, b: Bytes, terminated: bool) returns (r: Option<Summary>)
    ensures r == Scanned(c, b, terminated)
  {
    var cut := CutLines(b);
    var lines := if cut.tail == [] then cut.lines else cut.lines + [cut.tail];
    var count: nat, first: Option<int>, last: Option<int> := 0, None, None;
    for i := 0 to |lines|
      invariant cut.tail != [] && terminated ==> i < |lines|
      invariant count == i
      invariant forall j :: 0 <= j < i ==> c.decode(lines[j]).Some?
      invariant i == 0 ==> first == None && last == None
      invariant i > 0 ==> first == Some(c.decode(lines[0]).value.number)
                          && last == Some(c.decode(lines[i - 1]).value.number)
    {
      if i == |cut.lines| && terminated {
        return None;
      }
      var e := c.decode(lines[i]);
      if e.None? {
        DecodeAllFails(c, lines, i);
        if cut.tail != [] && terminated {
          assert i < |cut.lines|;
        }
        return None;
      }
      count := count + 1;
      first := if first == None then Some(e.value.number) else first;
      last := Some(e.value.number);
    }
    DecodeAllAt(c, lines);
    return Some(Summary(count, first, last));
  }

  /** A validator run over the encoding of `events` reports exactly their count, first and last. */
  lemma {:induction false} ScannedWhole(c: LineCodec, events: seq<Event>, terminated: bool)
    requires Faithful(c) && Storable(c, events)
    ensures Scanned(c, Encoded(c, events), terminated) == Some(SummaryOf(events))
  {
    WholeFile(c, events);
  }
}
