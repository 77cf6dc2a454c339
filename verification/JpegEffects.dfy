/** The verdict on any file that is laid out in items, said over their bytes. */
module JpegEffects {
  import opened Prelude
  import opened Unicode
  import opened Slices
  import opened Jpeg
  import opened JpegLayout

  // The start-of-frame markers.
  predicate Frames(code: Byte) {
    code in {0xC0, 0xC1, 0xC2, 0xC3, 0xC5, 0xC6, 0xC7, 0xC9, 0xCA, 0xCB, 0xCD, 0xCE, 0xCF}
  }

  // What a frame header says of the image: behind one byte the height and the width,
  // two bytes each. A pixel takes four bytes, of 256 MiB at most.
  function FrameVerdict(payload: seq<Byte>): Verdict {
    if |payload| < 6 then Cut
    else
      var height: nat, width: nat := payload[1] as int * 256 + payload[2], payload[3] as int * 256 + payload[4];
      if height == 0 || width == 0 then NoPixels
      else if 4 * (width * height) > 268_435_456 then TooLarge
      else Fine
  }

  // The first item that cannot stand where it does decides.
  function Judge(items: seq<Item>, framed: bool, scanned: bool): Verdict {
    if items == [] then if framed && scanned then Fine else Cut
    else match items[0]
      case Alone(_, _) => Judge(items[1..], framed, scanned)
      case Segment(_, code, payload) =>
        if !Frames(code) then Judge(items[1..], framed, scanned)
        else if FrameVerdict(payload) == Fine then Judge(items[1..], true, scanned)
        else FrameVerdict(payload)
      case Scan(_, _, _) => if framed then Judge(items[1..], framed, true) else Cut
  }

  lemma FrameIs(payload: seq<Byte>)
    ensures FrameVerdict(payload) == match FrameSize(payload) case None => Cut case Some(size) => WithinLimit(size, 4)
    ensures FrameSize(payload).Some? ==>
              FrameSize(payload).value ==
              Size(payload[3] as int * 256 + payload[4], payload[1] as int * 256 + payload[2])
  {
    if FrameSize(payload).Some? {
      var size := FrameSize(payload).value;
      assert size.width * size.height * 4 == 4 * (size.width * size.height);
    }
  }

  lemma {:induction false} Judged(bytes: seq<Byte>, i: nat, items: seq<Item>, fill: nat, frame: Option<Size>,
        scans: nat)
    requires ItemsOk(items) && Reads(bytes, i, Bytes(items, fill))
    requires frame.Some? ==> WithinLimit(frame.value, 4).Fine?
    ensures Walk(bytes, i, frame, scans) == Judge(items, frame.Some?, scans > 0)
    decreases |items|
  {
    hide Reads, Walk, WithinLimit, FrameAfter, ScansAfter, ItemBytes, Marker, FrameSize, FrameVerdict, ItemOk, Passes;
    if items == [] {
      MarkerRead(bytes, i, fill, EOI);
      WalkEnd(bytes, i, i + fill + 1, frame, scans);
    } else {
      if items[0].Segment? { FrameIs(items[0].payload); }
      PassesIs(items[0], frame.Some?);
      if Passes(items[0], frame.Some?) {
        ItemRead(bytes, i, items, fill, frame, scans);
        AfterIs(items[0], frame, scans);
        Judged(bytes, i + |ItemBytes(items[0])|, items[1..], fill, FrameAfter(items[0], frame),
          ScansAfter(items[0], scans));
      } else {
        Stopped(bytes, i, items, fill, frame, scans);
      }
    }
  }

  lemma PassesIs(item: Item, framed: bool)
    ensures Passes(item, framed) <==>
            match item
            case Alone(_, _) => true
            case Segment(_, code, payload) => Frames(code) ==> FrameVerdict(payload) == Fine
            case Scan(_, _, _) => framed
  {
    hide FrameVerdict, WithinLimit, FrameSize;
    if item.Segment? { FrameIs(item.payload); }
  }

  lemma AfterIs(item: Item, frame: Option<Size>, scans: nat)
    requires Passes(item, frame.Some?) && (frame.Some? ==> WithinLimit(frame.value, 4).Fine?)
    ensures var after := FrameAfter(item, frame);
      && (after.Some? ==> WithinLimit(after.value, 4).Fine?)
      && (after.Some? <==> frame.Some? || (item.Segment? && Frames(item.code)))
      && (ScansAfter(item, scans) > 0 <==> scans > 0 || item.Scan?)
  {
    hide WithinLimit, FrameSize;
  }

  lemma Stopped(bytes: seq<Byte>, i: nat, items: seq<Item>, fill: nat, frame: Option<Size>, scans: nat)
    requires items != [] && ItemsOk(items) && Reads(bytes, i, Bytes(items, fill)) && !Passes(items[0], frame.Some?)
    ensures Walk(bytes, i, frame, scans) ==
            match items[0] case Segment(_, _, payload) => FrameVerdict(payload) case _ => Cut
  {
    hide Reads, Walk, WithinLimit, FrameSize, FrameVerdict, ItemsOk, ItemOk, ItemBytes;
    ItemFacts(items);
    ReadsSplit(bytes, i, ItemBytes(items[0]), Bytes(items[1..], fill));
    match items[0]
    case Segment(f, code, payload) => SegmentStopped(bytes, i, f, code, payload, frame, scans);
    case Scan(f, header, tokens) => ScanStopped(bytes, i, f, header, tokens, scans);
    case Alone(_, _) =>
  }

  lemma SegmentStopped(bytes: seq<Byte>, i: nat, f: nat, code: Byte, payload: seq<Byte>, frame: Option<Size>,
        scans: nat)
    requires ItemOk(Segment(f, code, payload)) && Reads(bytes, i, ItemBytes(Segment(f, code, payload)))
    requires FrameCode(code) && (FrameSize(payload).None? || !WithinLimit(FrameSize(payload).value, 4).Fine?)
    ensures Walk(bytes, i, frame, scans) == FrameVerdict(payload)
  {
    hide Reads, Walk, WithinLimit, FrameSize, FrameVerdict, Entropy, Marker, Word;
    FrameIs(payload);
    ReadsSplit(bytes, i, Marker(f, code), Sized(payload));
    MarkerRead(bytes, i, f, code);
    SizedRead(bytes, i + f + 2, payload);
    WalkHeaded(bytes, i, i + f + 1, frame, scans);
  }

  lemma ScanStopped(bytes: seq<Byte>, i: nat, f: nat, header: seq<Byte>, tokens: seq<Token>, scans: nat)
    requires ItemOk(Scan(f, header, tokens)) && Reads(bytes, i, ItemBytes(Scan(f, header, tokens)))
    ensures Walk(bytes, i, None, scans) == Cut
  {
    hide Reads, Walk, Entropy, Marker, Word, TokensOk, TokensBytes;
    ReadsSplit(bytes, i, Marker(f, SOS), Sized(header) + TokensBytes(tokens));
    MarkerRead(bytes, i, f, SOS);
    WalkHeaded(bytes, i, i + f + 1, None, scans);
  }

  /**
   Of a file that is laid out in items, whatever they are: it is fine when a frame comes
   before the first scan, there is a scan, and no frame is too small or too large. Else the
   first item that breaks this says why.
   */
  lemma LaidOutIsJudged(bytes: seq<Byte>, items: seq<Item>, fill: nat)
    requires ItemsOk(items) && Reads(bytes, 2, Bytes(items, fill))
    ensures Walk(bytes, 2, None, 0) == Judge(items, false, false)
  {
    Judged(bytes, 2, items, fill, None, 0);
  }

  predicate Restarts(code: Byte) { 0xD0 <= code < 0xD8 }

  // Whether the i-th item is one.
  predicate Itself(items: seq<Item>, i: nat)
    requires i < |items|
  {
    match items[i]
    case Alone(_, code) => code == 1 || Restarts(code)
    case Segment(_, code, payload) =>
      code !in {1, 0xD9, 0xDA, 0xFF} && !Restarts(code) && |payload| <= 65_533
    case Scan(_, header, tokens) =>
      && |header| <= 65_533
      && (forall k: nat {:trigger tokens[k]} :: k < |tokens| ==>
            match tokens[k] case Plain(byte) => byte != 0xFF case Escaped(_, code) => code == 0 || Restarts(code))
      && (i + 1 < |items| && items[i + 1].Alone? ==> items[i + 1].code != 0 && !Restarts(items[i + 1].code))
      && (i + 1 < |items| && items[i + 1].Segment? ==> items[i + 1].code != 0 && !Restarts(items[i + 1].code))
  }

  // Which items there are, and that data is not followed by what would belong to it.
  lemma {:induction false} ItemsAre(items: seq<Item>)
    ensures ItemsOk(items) <==> forall i: nat {:trigger Itself(items, i)} :: i < |items| ==> Itself(items, i)
  {
    hide Itself, ItemOk, FirstCode, InScan;
    if items != [] {
      ItemsAre(items[1..]);
      FirstIs(items);
      forall i: nat | 0 < i < |items| ensures Itself(items, i) <==> Itself(items[1..], i - 1) { SameItem(items, i); }
      forall i: nat | i < |items| - 1 ensures Itself(items[1..], i) <==> Itself(items, i + 1) {
        SameItem(items, i + 1);
      }
    }
  }

  lemma SameItem(items: seq<Item>, i: nat)
    requires 0 < i < |items|
    ensures Itself(items, i) <==> Itself(items[1..], i - 1)
  { }

  lemma FirstIs(items: seq<Item>)
    requires items != []
    ensures Itself(items, 0) <==> ItemOk(items[0]) && (items[0].Scan? ==> !InScan(FirstCode(items[1..])))
  {
    if items[0].Scan? {
      assert forall k: nat {:trigger items[0].tokens[k]} :: k < |items[0].tokens| ==>
          items[0].tokens[k] in items[0].tokens;
    }
  }
}
