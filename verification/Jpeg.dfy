/** The walk through the markers of a JPEG file, and the bound on its decoded size. */
module Jpeg {
  import opened Prelude
  import opened Unicode

  const FILL: Byte := 0xFF
  const EOI: Byte := 0xD9
  const SOS: Byte := 0xDA
  const DECODED_LIMIT := 256 * 1024 * 1024

  datatype Verdict = Fine | Cut | NoPixels | TooLarge
  datatype Size = Size(width: nat, height: nat)

  function WithinLimit(size: Size, perPixel: nat): Verdict {
    if size.width == 0 || size.height == 0 then NoPixels
    else if size.width * size.height * perPixel > DECODED_LIMIT then TooLarge
    else Fine
  }

  predicate RestartCode(code: Byte) { 0xD0 <= code <= 0xD7 }
  predicate AloneCode(code: Byte) { code == 0x01 || RestartCode(code) }
  predicate FrameCode(code: Byte) { 0xC0 <= code <= 0xCF && code !in {0xC4, 0xC8, 0xCC} }

  // Behind 0xFF in entropy-coded data: a stuffed zero or a restart.
  predicate InScan(code: Byte) { code == 0x00 || RestartCode(code) }

  function Word(high: Byte, low: Byte): nat { high * 0x100 + low }

  // The size a frame header gives, if it is long enough.
  function FrameSize(payload: seq<Byte>): Option<Size> {
    if |payload| < 6 then None else Some(Size(Word(payload[3], payload[4]), Word(payload[1], payload[2])))
  }

  // ---------- the walk ----------

  // The first byte from i on that is not 0xFF.
  function SkipFill(bytes: seq<Byte>, i: nat): (m: nat)
    requires i <= |bytes|
    ensures i <= m <= |bytes| && (forall k :: i <= k < m ==> bytes[k] == FILL) && (m < |bytes| ==> bytes[m] != FILL)
    decreases |bytes| - i
  {
    if i < |bytes| && bytes[i] == FILL then SkipFill(bytes, i + 1) else i
  }

  // The 0xFF of the marker that ends entropy-coded data.
  function Entropy(bytes: seq<Byte>, i: nat): (end: Option<nat>)
    ensures end.Some? ==> i <= end.value && end.value + 1 < |bytes| && bytes[end.value] == FILL
    decreases |bytes| - i
  {
    if i >= |bytes| then None
    else if bytes[i] != FILL then Entropy(bytes, i + 1)
    else if i + 1 == |bytes| then None
    else if InScan(bytes[i + 1]) then Entropy(bytes, i + 2)
    else if bytes[i + 1] == FILL then Entropy(bytes, i + 1)
    else Some(i)
  }

  function Walk(bytes: seq<Byte>, i: nat, frame: Option<Size>, scans: nat): Verdict
    decreases |bytes| - i, 2
  {
    if i >= |bytes| || bytes[i] != FILL then Cut
    else
      var m := SkipFill(bytes, i);
      if m == |bytes| then Cut
      else if bytes[m] == EOI then
        if frame.Some? && scans > 0 then WithinLimit(frame.value, 4) else Cut
      else if AloneCode(bytes[m]) then Walk(bytes, m + 1, frame, scans)
      else WalkSegment(bytes, m, frame, scans)
  }

  // At the code of a marker that heads a segment.
  function WalkSegment(bytes: seq<Byte>, m: nat, frame: Option<Size>, scans: nat): Verdict
    requires m < |bytes|
    decreases |bytes| - m, 1
  {
    if m + 3 > |bytes| then Cut
    else
      var length := Word(bytes[m + 1], bytes[m + 2]);
      if length < 2 || m + 1 + length > |bytes| then Cut
      else
        var payload, next := bytes[m + 3..m + 1 + length], m + 1 + length;
        if FrameCode(bytes[m]) then
          if FrameSize(payload).None? then Cut
          else
            var verdict := WithinLimit(FrameSize(payload).value, 4);
            if verdict.Fine? then Walk(bytes, next, FrameSize(payload), scans) else verdict
        else if bytes[m] == SOS then
          if frame.None? then Cut
          else match Entropy(bytes, next)
            case None => Cut
            case Some(end) => Walk(bytes, end, frame, scans + 1)
        else Walk(bytes, next, frame, scans)
  }

  method FindMarker(bytes: seq<Byte>, start: nat) returns (end: Option<nat>)
    requires start <= |bytes|
    ensures end == Entropy(bytes, start)
  {
    var index := start;
    while true
      invariant index <= |bytes| && Entropy(bytes, start) == Entropy(bytes, index)
      decreases |bytes| - index
    {
      while index < |bytes| && bytes[index] != FILL
        invariant index <= |bytes| && Entropy(bytes, start) == Entropy(bytes, index)
      {
        index := index + 1;
      }
      if index + 1 >= |bytes| { return None; }
      if InScan(bytes[index + 1]) {
        index := index + 2;
      } else if bytes[index + 1] == FILL {
        index := index + 1;
      } else {
        return Some(index);
      }
    }
  }

  method Check(bytes: seq<Byte>) returns (verdict: Verdict)
    ensures verdict == Walk(bytes, 2, None, 0)
  {
    var index, frame, scans := 2, None, 0;
    while true
      invariant Walk(bytes, 2, None, 0) == Walk(bytes, index, frame, scans)
      decreases |bytes| - index
    {
      if index >= |bytes| || bytes[index] != FILL { return Cut; }
      ghost var start := index;
      while index < |bytes| && bytes[index] == FILL
        invariant start <= index <= |bytes| && SkipFill(bytes, start) == SkipFill(bytes, index)
      {
        index := index + 1;
      }
      if index == |bytes| { return Cut; }
      var marker := bytes[index];
      index := index + 1;
      if marker == EOI {
        return if frame.Some? && scans > 0 then WithinLimit(frame.value, 4) else Cut;
      }
      if AloneCode(marker) { continue; }
      if index + 2 > |bytes| { return Cut; }
      var length := Word(bytes[index], bytes[index + 1]);
      if length < 2 || index + length > |bytes| { return Cut; }
      var segment := bytes[index + 2..index + length];
      index := index + length;
      if FrameCode(marker) {
        var size := FrameSize(segment);
        if size.None? { return Cut; }
        verdict := WithinLimit(size.value, 4);
        if !verdict.Fine? { return; }
        frame := size;
      } else if marker == SOS {
        if frame.None? { return Cut; }
        scans := scans + 1;
        var end := FindMarker(bytes, index);
        if end.None? { return Cut; }
        index := end.value;
      }
    }
  }
}
