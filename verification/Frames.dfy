/** The frame format: ten header bytes, then the payload. */
module Frames {
  import opened Bytes

  /** A reason code, as the bytes it travels as. */
  type Reason = seq<byte>

  datatype Frame = Frame(typ: byte, id: uint32, payload: seq<byte>)

  const VERSION: byte := 1
  const HEADER_SIZE: nat := 10
  const MAX_FRAME_PAYLOAD: uint32 := 65536

  const HELLO: byte := 0x01
  const HELLO_ACK: byte := 0x02
  const AUTH: byte := 0x03
  const AUTH_OK: byte := 0x04
  const OPEN_STREAM: byte := 0x10
  const STREAM_OK: byte := 0x11
  const STREAM_DATA: byte := 0x12
  const STREAM_WINDOW: byte := 0x13
  const CLOSE_STREAM: byte := 0x14
  const PING: byte := 0x20
  const PONG: byte := 0x21
  const ERROR: byte := 0x7F

  predicate Known(typ: byte) {
    typ in {HELLO, HELLO_ACK, AUTH, AUTH_OK, OPEN_STREAM, STREAM_OK, STREAM_DATA,
            STREAM_WINDOW, CLOSE_STREAM, PING, PONG, ERROR}
  }

  function EncodeHeader(typ: byte, id: uint32, length: uint32): (h: seq<byte>)
    ensures |h| == HEADER_SIZE
  {
    [VERSION, typ] + BigEndian(4, id) + BigEndian(4, length)
  }

  /** The bytes the writer emits. The length field is `uint32(len(payload))`, so a payload of
      four gigabytes or more announces a truncated length. */
  function EncodeFrame(f: Frame): (b: seq<byte>)
    ensures |b| == HEADER_SIZE + |f.payload|
  {
    EncodeHeader(f.typ, f.id, Wrap32(|f.payload|)) + f.payload
  }

  datatype HeaderResult =
    | UnsupportedVersion
    | UnknownType
    | FrameTooLarge
    | Header(typ: byte, id: uint32, length: uint32)

  /** Version, then type, then length against the limit, all before any payload byte is read. */
  function DecodeHeader(src: seq<byte>, max: uint32): HeaderResult
    requires |src| == HEADER_SIZE
  {
    if src[0] != VERSION then UnsupportedVersion
    else if !Known(src[1]) then UnknownType
    else
      var length := Uint32At(src[6..10]);
      if length > max then FrameTooLarge
      else Header(src[1], Uint32At(src[2..6]), length)
  }

  datatype ReadResult =
    | EndOfStream
    | TruncatedHeader
    | Refused(why: HeaderResult)
    | TruncatedPayload
    | TransportFailed
    | Got(frame: Frame, rest: seq<byte>)

  /** Reads one frame off the front of the bytes a connection yields. */
  function ReadOne(input: seq<byte>, max: uint32): (r: ReadResult)
    ensures r.Got? ==> |r.rest| < |input|
  {
    if |input| == 0 then EndOfStream
    else if |input| < HEADER_SIZE then TruncatedHeader
    else
      var h := DecodeHeader(input[..HEADER_SIZE], max);
      if !h.Header? then Refused(h)
      else if |input| < HEADER_SIZE + h.length then TruncatedPayload
      else Got(Frame(h.typ, h.id, input[HEADER_SIZE..HEADER_SIZE + h.length]),
               input[HEADER_SIZE + h.length..])
  }

  function EncodeAll(frames: seq<Frame>): seq<byte> {
    if frames == [] then [] else EncodeFrame(frames[0]) + EncodeAll(frames[1..])
  }

  datatype Transcript = Transcript(frames: seq<Frame>, last: ReadResult)

  /** Reads frames until one is not delivered, as the session's read loop does. */
  function ReadAll(input: seq<byte>, max: uint32): Transcript
    decreases |input|
  {
    var r := ReadOne(input, max);
    if r.Got? then
      var t := ReadAll(r.rest, max);
      Transcript([r.frame] + t.frames, t.last)
    else
      Transcript([], r)
  }

  /** What a conforming writer with limit `max` may put on the wire. */
  predicate Sendable(f: Frame, max: uint32) {
    Known(f.typ) && |f.payload| <= max
  }

  /** A header written for any type and length is read back field for field. */
  lemma HeaderRoundTrip(typ: byte, id: uint32, length: uint32, max: uint32)
    ensures DecodeHeader(EncodeHeader(typ, id, length), max) ==
            if !Known(typ) then UnknownType
            else if length > max then FrameTooLarge
            else Header(typ, id, length)
  {
    Widths();
    ReadsWhatWasWritten(4, id);
    ReadsWhatWasWritten(4, length);
    var h := EncodeHeader(typ, id, length);
    assert h[2..6] == BigEndian(4, id) && h[6..10] == BigEndian(4, length);
  }

  lemma ReadsPastTheHeader(header: seq<byte>, f: Frame, rest: seq<byte>, max: uint32)
    requires |header| == HEADER_SIZE && |f.payload| < TWO_32
    requires DecodeHeader(header, max) == Header(f.typ, f.id, |f.payload|)
    ensures ReadOne(header + f.payload + rest, max) == Got(f, rest)
  {
    var input := header + f.payload + rest;
    assert input[..HEADER_SIZE] == header;
    assert input[HEADER_SIZE..HEADER_SIZE + |f.payload|] == f.payload;
    assert input[HEADER_SIZE + |f.payload|..] == rest;
  }

  lemma ReadsTheFrontFrame(f: Frame, rest: seq<byte>, max: uint32)
    requires Sendable(f, max)
    ensures ReadOne(EncodeFrame(f) + rest, max) == Got(f, rest)
  {
    var n: uint32 := |f.payload|;
    assert Wrap32(n) == n;
    HeaderRoundTrip(f.typ, f.id, n, max);
    ReadsPastTheHeader(EncodeHeader(f.typ, f.id, n), f, rest, max);
    assert EncodeFrame(f) == EncodeHeader(f.typ, f.id, n) + f.payload;
  }

  /** Reading the concatenated writes yields exactly the frames written, then a clean end. */
  lemma {:induction false} FrameSequenceRoundTrip(frames: seq<Frame>, max: uint32)
    requires forall f <- frames :: Sendable(f, max)
    ensures ReadAll(EncodeAll(frames), max) == Transcript(frames, EndOfStream)
  {
    if frames != [] {
      ReadsTheFrontFrame(frames[0], EncodeAll(frames[1..]), max);
      FrameSequenceRoundTrip(frames[1..], max);
    }
  }

  lemma ReadsOneThen(f: Frame, rest: seq<byte>, max: uint32, input: seq<byte>)
    requires Sendable(f, max) && input == EncodeFrame(f) + rest
    ensures ReadAll(input, max) == Transcript([f] + ReadAll(rest, max).frames, ReadAll(rest, max).last)
  {
    ReadsTheFrontFrame(f, rest, max);
  }

  /** And then whatever the bytes after them are read as. */
  lemma {:induction false} ReadsFramesThen(frames: seq<Frame>, tail: seq<byte>, max: uint32, input: seq<byte>)
    requires (forall f <- frames :: Sendable(f, max)) && input == EncodeAll(frames) + tail
    ensures ReadAll(input, max) == Transcript(frames + ReadAll(tail, max).frames, ReadAll(tail, max).last)
    decreases |frames|
  {
    var last := ReadAll(tail, max);
    if frames == [] {
      assert input == tail && [] + last.frames == last.frames;
    } else {
      var f, more := frames[0], frames[1..];
      assert frames == [f] + more;
      var rest := EncodeAll(more) + tail;
      PrependEncodes(f, more, tail);
      ReadsFramesThen(more, tail, max, rest);
      ReadsOneThen(f, rest, max, input);
      FirstAndMore(f, more, last.frames);
    }
  }

  lemma FirstAndMore(f: Frame, more: seq<Frame>, last: seq<Frame>)
    ensures [f] + (more + last) == [f] + more + last
  {
  }

  /** A frame cut short is never taken for a frame. */
  lemma TornFrameIsNotRead(f: Frame, n: nat, max: uint32)
    requires Sendable(f, max) && n < |EncodeFrame(f)|
    ensures ReadAll(EncodeFrame(f)[..n], max) ==
            Transcript([], if n == 0 then EndOfStream else if n < HEADER_SIZE then TruncatedHeader else TruncatedPayload)
  {
    var b := EncodeFrame(f)[..n];
    if n >= HEADER_SIZE {
      assert b[..HEADER_SIZE] == EncodeHeader(f.typ, f.id, |f.payload|);
      HeaderRoundTrip(f.typ, f.id, |f.payload|, max);
    }
  }

  /** Every frame the reader accepts is sendable, and re-encodes to exactly the bytes consumed. */
  lemma AcceptedFrameReencodes(input: seq<byte>, max: uint32)
    requires ReadOne(input, max).Got?
    ensures var r := ReadOne(input, max);
            Sendable(r.frame, max) && input == EncodeFrame(r.frame) + r.rest
  {
    var header := input[..HEADER_SIZE];
    HeaderReencodes(header, max);
    var h := DecodeHeader(header, max);
    var payload := input[HEADER_SIZE..HEADER_SIZE + h.length];
    assert Wrap32(|payload|) == h.length;
    assert input == header + payload + input[HEADER_SIZE + h.length..];
  }

  lemma HeaderReencodes(header: seq<byte>, max: uint32)
    requires |header| == HEADER_SIZE && DecodeHeader(header, max).Header?
    ensures var h := DecodeHeader(header, max);
            header == EncodeHeader(h.typ, h.id, h.length) && Known(h.typ) && h.length <= max
  {
    assert header == [header[0], header[1]] + header[2..6] + header[6..10];
  }

  /** A whole accepted transcript re-encodes to the bytes consumed, whatever stopped it. */
  lemma {:induction false} TranscriptReencodes(input: seq<byte>, max: uint32) returns (rest: seq<byte>)
    ensures var t := ReadAll(input, max);
            input == EncodeAll(t.frames) + rest && t.last == ReadOne(rest, max) && !t.last.Got?
    ensures forall f <- ReadAll(input, max).frames :: Sendable(f, max)
    decreases |input|
  {
    var r := ReadOne(input, max);
    if r.Got? {
      AcceptedFrameReencodes(input, max);
      rest := TranscriptReencodes(r.rest, max);
      PrependEncodes(r.frame, ReadAll(r.rest, max).frames, rest);
    } else {
      rest := input;
    }
  }

  lemma PrependEncodes(f: Frame, frames: seq<Frame>, rest: seq<byte>)
    ensures EncodeAll([f] + frames) + rest == EncodeFrame(f) + (EncodeAll(frames) + rest)
  {
    assert ([f] + frames)[1..] == frames;
  }

  lemma {:induction false} EncodeAllAppends(a: seq<Frame>, f: Frame)
    ensures EncodeAll(a + [f]) == EncodeAll(a) + EncodeFrame(f)
  {
    if a == [] {
      assert [f][1..] == [];
      assert EncodeAll([f]) == EncodeFrame(f) + EncodeAll([]);
    } else {
      assert (a + [f])[1..] == a[1..] + [f];
      EncodeAllAppends(a[1..], f);
    }
  }

  // STREAM_WINDOW payloads

  function EncodeWindow(credit: uint32): (b: seq<byte>)
    ensures |b| == 4
  {
    BigEndian(4, credit)
  }

  /** Zero credit and a payload that is not four bytes are both refused. */
  function DecodeWindow(b: seq<byte>): (r: Option<uint32>)
  {
    if |b| != 4 then None
    else
      var credit := Uint32At(b);
      if credit == 0 then None else Some(credit)
  }

  lemma WindowRoundTrip(credit: uint32)
    ensures DecodeWindow(EncodeWindow(credit)) == if credit == 0 then None else Some(credit)
  {
    Widths();
    ReadsWhatWasWritten(4, credit);
  }

  /** How a codec failure is reported: only the codec's own refusals accuse the peer. */
  function ReasonFor(r: ReadResult): Reason {
    match r
    case Got(_, _) => Ascii("ok")
    case Refused(FrameTooLarge) => Ascii("limit_frame_too_large")
    case Refused(UnsupportedVersion) => Ascii("protocol_version_unsupported")
    case Refused(_) => Ascii("protocol_malformed_frame")
    case TruncatedPayload => Ascii("protocol_malformed_frame")
    case EndOfStream => Ascii("shutdown")
    case TruncatedHeader => Ascii("shutdown")
    case TransportFailed => Ascii("shutdown")
  }

  /** A transport failure is never reported as the peer's fault, and a delivered frame never as a failure. */
  lemma ReasonsAccuseOnlyThePeer(r: ReadResult)
    requires r.Refused? ==> !r.why.Header?
    ensures ReasonFor(r) == Ascii("shutdown") <==> r.EndOfStream? || r.TruncatedHeader? || r.TransportFailed?
    ensures ReasonFor(r) == Ascii("ok") <==> r.Got?
    ensures ReasonFor(r) == Ascii("limit_frame_too_large") <==> r == Refused(FrameTooLarge)
  {
    assert |Ascii("shutdown")| == 8 && |Ascii("ok")| == 2 && |Ascii("limit_frame_too_large")| == 21;
    assert |Ascii("protocol_malformed_frame")| == 24 && |Ascii("protocol_version_unsupported")| == 28;
  }
}

/** The codec objects: a reader that reuses its buffers, and a writer that fills a shared header. */
module Codec {
  import opened Bytes
  import opened Frames

  /** Writes `x` into four bytes of `dst` starting at `at`. */
  method PutUint32(dst: array<byte>, at: nat, x: uint32)
    requires at + 4 <= dst.Length
    modifies dst
    ensures dst[..] == old(dst[..at]) + BigEndian(4, x) + old(dst[at + 4..])
  {
    var b := BigEndian(4, x);
    for i := 0 to 4
      invariant forall k :: 0 <= k < dst.Length ==>
                              dst[k] == if at <= k < at + i then b[k - at] else old(dst[k])
    {
      dst[at + i] := b[i];
    }
  }

  /** Fills the first ten bytes of `dst` and leaves the rest alone. */
  method FillHeader(dst: array<byte>, typ: byte, id: uint32, length: uint32)
    requires dst.Length >= HEADER_SIZE
    modifies dst
    ensures dst[..HEADER_SIZE] == EncodeHeader(typ, id, length)
    ensures dst[HEADER_SIZE..] == old(dst[HEADER_SIZE..])
  {
    dst[0] := VERSION;
    dst[1] := typ;
    PutUint32(dst, 2, id);
    PutUint32(dst, 6, length);
  }

  /** One frame as the reader hands it over: its payload is the first `length` bytes of the
      reader's buffer, and stays there only until the next read. */
  datatype Outcome = Delivered(typ: byte, id: uint32, length: nat) | Stopped(why: ReadResult)

  /** What the reader makes of running out of input, when the connection fails rather than ends. */
  function OrFailed(r: ReadResult, broken: bool): ReadResult {
    if broken && (r.EndOfStream? || r.TruncatedHeader? || r.TruncatedPayload?) then TransportFailed else r
  }

  class Reader {
    var input: seq<byte>   // what the connection has still to yield
    const broken: bool     // whether it then fails rather than ends
    const header: array<byte>
    const buf: array<byte>
    const max: uint32

    ghost predicate Valid()
    {
      header.Length == HEADER_SIZE && buf.Length == max && header != buf
    }

    constructor (input: seq<byte>, broken: bool, max: uint32)
      ensures Valid() && this.input == input && this.broken == broken && this.max == max
      ensures fresh(header) && fresh(buf)
    {
      this.input := input;
      this.broken := broken;
      this.max := max;
      header := new byte[HEADER_SIZE](_ => 0);
      buf := new byte[max](_ => 0);
    }

    /** Reads exactly one frame, or says why not. The payload buffer is only written once the
        declared length is known to fit it. */
    method ReadFrame() returns (r: Outcome)
      requires Valid()
      modifies this`input, header, buf
      ensures Valid()
      ensures var spec := ReadOne(old(input), max);
              if spec.Got? then
                && r == Delivered(spec.frame.typ, spec.frame.id, |spec.frame.payload|)
                && |spec.frame.payload| <= buf.Length
                && buf[..|spec.frame.payload|] == spec.frame.payload
                && buf[|spec.frame.payload|..] == old(buf[..])[|spec.frame.payload|..]
                && input == spec.rest
              else
                r == Stopped(OrFailed(spec, broken))
      ensures ReadOne(old(input), max).Refused? ==> buf[..] == old(buf[..])
    {
      if |input| < HEADER_SIZE {
        r := Stopped(if broken then TransportFailed else if |input| == 0 then EndOfStream else TruncatedHeader);
        input := [];
        return;
      }
      forall i | 0 <= i < HEADER_SIZE {
        header[i] := input[i];
      }
      assert header[..] == input[..HEADER_SIZE];
      input := input[HEADER_SIZE..];

      var h := DecodeHeader(header[..], max);
      if !h.Header? {
        return Stopped(Refused(h));
      }
      var n := Min(|input|, h.length);
      forall i | 0 <= i < n {
        buf[i] := input[i];
      }
      assert buf[..n] == input[..n];
      input := input[n..];
      if n < h.length {
        return Stopped(if broken then TransportFailed else TruncatedPayload);
      }
      return Delivered(h.typ, h.id, h.length);
    }
  }

  class Writer {
    var wire: seq<byte>
    const header: array<byte>
    const max: uint32

    ghost predicate Valid()
    {
      header.Length == HEADER_SIZE
    }

    constructor (max: uint32)
      ensures Valid() && wire == [] && this.max == max && fresh(header)
    {
      wire := [];
      this.max := max;
      header := new byte[HEADER_SIZE](_ => 0);
    }

    /** One write to the connection, of which it accepts `room` bytes at most. */
    method Put(b: seq<byte>, room: nat) returns (ok: bool)
      modifies this`wire
      ensures wire == old(wire) + b[..Min(room, |b|)] && (ok <==> |b| <= room)
    {
      ok := |b| <= room;
      wire := wire + b[..Min(room, |b|)];
    }

    /** Oversized payloads are refused before anything is written. The comparison is made on
        `uint32(len(payload))`. A connection that fails on the way leaves a part of the frame, and an error. */
    method WriteFrame(typ: byte, id: uint32, payload: seq<byte>, room: nat) returns (r: WriteStatus)
      requires Valid()
      modifies this`wire, header
      ensures Valid()
      ensures r.Oversized? <==> Wrap32(|payload|) > max
      ensures r.Written? <==> Wrap32(|payload|) <= max && HEADER_SIZE + |payload| <= room
      ensures var b := EncodeFrame(Frame(typ, id, payload));
              wire == old(wire) + if r.Oversized? then [] else b[..Min(room, |b|)]
    {
      if Wrap32(|payload|) > max {
        return Oversized;
      }
      FillHeader(header, typ, id, Wrap32(|payload|));
      assert header[..] == header[..HEADER_SIZE];
      ghost var b := EncodeFrame(Frame(typ, id, payload));
      assert b[..HEADER_SIZE] == header[..] && b[HEADER_SIZE..] == payload;
      var ok := Put(header[..], room);
      if !ok {
        assert b[..room] == header[..][..room];
        return Broken;
      }
      if |payload| > 0 {
        ok := Put(payload, room - HEADER_SIZE);
        var n := Min(room - HEADER_SIZE, |payload|);
        assert b[..HEADER_SIZE + n] == b[..HEADER_SIZE] + payload[..n];
        if !ok {
          return Broken;
        }
      }
      return Written;
    }
  }

  datatype WriteStatus = Oversized | Broken | Written

  /** What a reader makes of any frame's bytes. The writer's own check is on the truncated length too, so an
      accepted payload is read up to that length, and the rest of it taken for what follows. */
  lemma ReadsUpToTheTruncatedLength(f: Frame, max: uint32)
    ensures var w := Wrap32(|f.payload|);
            ReadOne(EncodeFrame(f), max) ==
            if !Known(f.typ) then Refused(UnknownType)
            else if w > max then Refused(FrameTooLarge)
            else Got(Frame(f.typ, f.id, f.payload[..w]), f.payload[w..])
  {
    var w := Wrap32(|f.payload|);
    var header := EncodeHeader(f.typ, f.id, w);
    HeaderRoundTrip(f.typ, f.id, w, max);
    if Known(f.typ) && w <= max {
      SplitsAt(header, f.payload, w);
      ReadsPastTheHeader(header, Frame(f.typ, f.id, f.payload[..w]), f.payload[w..], max);
    } else {
      RefusedAtTheHeader(header, f.payload, max);
    }
  }

  lemma SplitsAt(header: seq<byte>, payload: seq<byte>, w: nat)
    requires w <= |payload|
    ensures header + payload == header + payload[..w] + payload[w..]
  {
  }

  lemma RefusedAtTheHeader(header: seq<byte>, rest: seq<byte>, max: uint32)
    requires |header| == HEADER_SIZE && !DecodeHeader(header, max).Header?
    ensures ReadOne(header + rest, max) == Refused(DecodeHeader(header, max))
  {
    assert (header + rest)[..HEADER_SIZE] == header;
  }

  /** Everything the writer lets through is read back whole exactly when the payload is below four gigabytes or
      is refused by its truncated length. */
  lemma WriterAcceptsOnlyReadable(f: Frame, max: uint32)
    requires Known(f.typ)
    ensures (Wrap32(|f.payload|) <= max ==> ReadOne(EncodeFrame(f), max) == Got(f, [])) <==>
            |f.payload| < TWO_32 || Wrap32(|f.payload|) > max
  {
    ReadsUpToTheTruncatedLength(f, max);
    if |f.payload| < TWO_32 {
      assert f.payload[..|f.payload|] == f.payload && f.payload[|f.payload|..] == [];
    } else {
      assert |f.payload[..Wrap32(|f.payload|)]| < |f.payload|;
    }
  }

  /** At exactly four gigabytes every limit lets the frame past, and all of the payload is taken for what
      follows. */
  lemma OversizedPayloadSlipsThrough(f: Frame, max: uint32)
    requires Known(f.typ) && |f.payload| == TWO_32
    ensures Wrap32(|f.payload|) <= max
    ensures ReadOne(EncodeFrame(f), max) == Got(Frame(f.typ, f.id, []), f.payload)
  {
    ReadsUpToTheTruncatedLength(f, max);
    assert f.payload[..0] == [] && f.payload[0..] == f.payload;
  }
}
