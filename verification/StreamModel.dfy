/** One end of a multiplexed stream, as a value: what each locked region does to it. */
module StreamModel {
  import opened Bytes
  import opened Frames

  const REASON_OK: Reason := Ascii("ok")

  datatype StreamState = StreamState(
    buf: seq<byte>,
    recvWindow: uint32,
    sendWindow: uint32,
    pendingCredit: uint32,
    localClosed: bool,
    remoteClosed: bool,
    reset: bool,
    resetReason: Reason,
    openPayload: seq<byte>)
  {
    predicate Finished() {
      reset || (localClosed && remoteClosed)
    }

    /** Whether arriving data is still taken, rather than dropped. */
    predicate Accepting() {
      !reset && !remoteClosed
    }
  }

  function NewStream(window: uint32, payload: seq<byte>): StreamState {
    StreamState([], window, window, 0, false, false, false, [], payload)
  }

  // Read

  datatype ReadOutcome =
    | ReadWaits
    | ReadAborted(reason: Reason)
    | ReadEof
    | ReadGot(bytes: seq<byte>, credit: uint32)

  /** One locked region of Read: at most `max` bytes leave the buffer, and the credit for them is
      either batched or, at the threshold, handed over to be sent. */
  function Read(s: StreamState, max: nat, threshold: uint32): (ReadOutcome, StreamState) {
    if max == 0 then (ReadGot([], 0), s)
    else if |s.buf| == 0 then
      ((if s.reset then ReadAborted(s.resetReason) else if s.remoteClosed then ReadEof else ReadWaits), s)
    else
      var n := Min(max, |s.buf|);
      var pending := Wrap32(s.pendingCredit + Wrap32(n));
      var due := pending >= threshold;
      (ReadGot(s.buf[..n], if due then pending else 0),
       s.(buf := s.buf[n..],
          recvWindow := Wrap32(s.recvWindow + Wrap32(n)),
          pendingCredit := if due then 0 else pending))
  }

  // Write

  datatype WriteOutcome =
    | WriteWaits
    | WriteRefused
    | WriteAborted(reason: Reason)
    | WriteChunk(n: nat)

  /** How much of `left` bytes one round of Write takes, with Go's conversions to uint32. */
  function ChunkSize(left: nat, sendWindow: uint32, maxFrame: uint32): (n: nat)
    ensures n <= left
  {
    var n := if Wrap32(left) > sendWindow then sendWindow else left;
    if Wrap32(n) > maxFrame then maxFrame else n
  }

  /** One locked region of Write: the chunk's credit is debited before the chunk is sent. */
  function Write(s: StreamState, left: nat, maxFrame: uint32): (WriteOutcome, StreamState) {
    if s.reset then (WriteAborted(s.resetReason), s)
    else if s.localClosed then (WriteRefused, s)
    else if s.sendWindow == 0 then (WriteWaits, s)
    else
      var n := ChunkSize(left, s.sendWindow, maxFrame);
      (WriteChunk(n), s.(sendWindow := Wrap32(s.sendWindow - Wrap32(n))))
  }

  // Close and abort

  /** Whether closeWith has anything to do. */
  predicate CanClose(s: StreamState) {
    !s.localClosed && !s.reset
  }

  function Close(s: StreamState): StreamState {
    s.(localClosed := true)
  }

  function Reset(s: StreamState, r: Reason): StreamState {
    s.(reset := true, resetReason := r, localClosed := true, remoteClosed := true, buf := [])
  }

  // What the session's reader does to a stream

  /** None means the peer sent more than it was granted. */
  function Deliver(s: StreamState, b: seq<byte>): Option<StreamState> {
    if !s.Accepting() then Some(s)
    else if Wrap32(|b|) > s.recvWindow then None
    else Some(s.(recvWindow := Wrap32(s.recvWindow - Wrap32(|b|)), buf := s.buf + b))
  }

  /** Saturates rather than wrapping. */
  function GrantCredit(s: StreamState, n: uint32): StreamState {
    s.(sendWindow := if s.sendWindow > 0xFFFF_FFFF - n then 0xFFFF_FFFF else s.sendWindow + n)
  }

  /** An empty reason is an orderly close too. */
  predicate Orderly(r: Reason) {
    r == REASON_OK || r == []
  }

  function RemoteClose(s: StreamState, r: Reason): StreamState {
    if s.remoteClosed || s.reset then s
    else if Orderly(r) then s.(remoteClosed := true)
    else s.(remoteClosed := true, reset := true, resetReason := r, buf := [])
  }

  /** The session ended. What is buffered stays readable. */
  function Kill(s: StreamState, r: Reason): StreamState {
    if s.reset then s
    else s.(reset := true, resetReason := r, localClosed := true, remoteClosed := true)
  }

  // What holds of one end on its own, whatever the peer sends

  /** The receive window and the unread bytes make up the whole window, until an abort discards
      the unread bytes; batched credit rests below the threshold. */
  predicate Bounded(s: StreamState, window: uint32, threshold: uint32) {
    && |s.buf| + s.recvWindow <= window
    && (!s.reset ==> |s.buf| + s.recvWindow == window)
    && s.pendingCredit < threshold
  }

  /** A round of Write takes the least of what is left, the credit and the frame limit, exactly when
      the truncation of the length to 32 bits is harmless. */
  lemma ChunkSizeExact(left: nat, sendWindow: uint32, maxFrame: uint32)
    ensures ChunkSize(left, sendWindow, maxFrame) == Min(left, Min(sendWindow, maxFrame)) <==>
            left < TWO_32 || Wrap32(left) > Min(sendWindow, maxFrame)
  {
    if left >= TWO_32 {
      assert Min(left, Min(sendWindow, maxFrame)) == Min(sendWindow, maxFrame) < TWO_32;
    }
  }

  lemma ChunkBounds(left: nat, sendWindow: uint32, maxFrame: uint32)
    requires left > 0 && sendWindow > 0 && maxFrame > 0
    ensures var n := ChunkSize(left, sendWindow, maxFrame);
            && 0 < n <= left
            && (left < TWO_32 ==> n <= maxFrame && n <= sendWindow && Wrap32(sendWindow - Wrap32(n)) + n == sendWindow)
  {
    if left < TWO_32 {
      NoWrap(left);
      var n := ChunkSize(left, sendWindow, maxFrame);
      NoWrap(n);
      NoWrap(sendWindow - n);
    }
  }

  /** Four gigabytes go out in one chunk and cost no credit. */
  lemma HugeWriteEscapesTheWindow()
    ensures var s := NewStream(1, []);
            Write(s, TWO_32, 1) == (WriteChunk(TWO_32), s)
  {
  }

  /** Every round makes progress. */
  lemma WriteRoundSendsSomething(s: StreamState, left: nat, maxFrame: uint32)
    requires 0 < left < TWO_32 && maxFrame > 0
    requires Write(s, left, maxFrame).0.WriteChunk?
    ensures var n := Write(s, left, maxFrame).0.n;
            0 < n <= left && n <= s.sendWindow && n <= maxFrame &&
            Write(s, left, maxFrame).1.sendWindow == s.sendWindow - n
  {
  }

  /** Every operation keeps a stream bounded, and delivery fails exactly on an open stream that is
      sent a frame longer than its receive window. */
  lemma DeliverBounded(s: StreamState, b: seq<byte>, window: uint32, threshold: uint32)
    requires Bounded(s, window, threshold) && |b| < TWO_32
    ensures Deliver(s, b).None? <==> s.Accepting() && |b| > s.recvWindow
    ensures Deliver(s, b).Some? ==> Bounded(Deliver(s, b).value, window, threshold)
    ensures Deliver(s, b).Some? && s.Accepting() ==> Deliver(s, b).value.buf == s.buf + b
  {
  }

  lemma ReadBounded(s: StreamState, max: nat, window: uint32, threshold: uint32)
    requires Bounded(s, window, threshold)
    ensures Bounded(Read(s, max, threshold).1, window, threshold)
    ensures Read(s, max, threshold).1.recvWindow + |Read(s, max, threshold).1.buf| == s.recvWindow + |s.buf|
  {
    if max > 0 && s.buf != [] {
      var n := Min(max, |s.buf|);
      NoWrap(n);
      NoWrap(s.recvWindow + n);
    }
  }

  lemma NoWrap(x: nat)
    requires x < TWO_32
    ensures Wrap32(x) == x
  {
  }

  /** Reading moves bytes into batched or released credit without losing any, exactly when the
      batched credit does not wrap on what is read. */
  lemma ReadConserves(s: StreamState, max: nat, window: uint32, threshold: uint32)
    requires Bounded(s, window, threshold)
    ensures var (r, t) := Read(s, max, threshold);
            |t.buf| + t.pendingCredit + (if r.ReadGot? then r.credit else 0) == |s.buf| + s.pendingCredit <==>
            s.pendingCredit + Min(max, |s.buf|) < TWO_32
  {
    if max > 0 && s.buf != [] {
      var n := Min(max, |s.buf|);
      NoWrap(n);
      if s.pendingCredit + n < TWO_32 {
        NoWrap(s.pendingCredit + n);
      } else {
        assert Wrap32(s.pendingCredit + n) == s.pendingCredit + n - TWO_32;
      }
    }
  }

  /** Against any peer the batched credit cannot wrap, for every buffer the window admits, exactly
      when window and threshold together stay below 2^32 + 1. */
  lemma CreditNeverWraps(window: uint32, threshold: uint32)
    requires threshold > 0
    ensures window + threshold <= TWO_32 <==>
            forall s: StreamState | Bounded(s, window, threshold) :: s.pendingCredit + |s.buf| < TWO_32
  {
    if window + threshold > TWO_32 {
      var zeros := seq(window, _ => 0);
      var s := NewStream(window, []).(buf := zeros, recvWindow := 0, pendingCredit := threshold - 1);
      assert Bounded(s, window, threshold);
      assert s.pendingCredit + |s.buf| >= TWO_32;
    }
  }
}
