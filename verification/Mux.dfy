/** The multiplexer's two classes, with their fields updated in place, proved against the value model. */
module Mux {
  import opened Bytes
  import opened Frames
  import opened StreamModel
  import opened SessionModel
  import opened MuxSystem

  function Join(chunks: seq<seq<byte>>): seq<byte> {
    if chunks == [] then [] else Join(chunks[..|chunks| - 1]) + chunks[|chunks| - 1]
  }

  lemma JoinOne(chunks: seq<seq<byte>>, c: seq<byte>)
    ensures Join(chunks + [c]) == Join(chunks) + c
  {
    assert (chunks + [c])[..|chunks|] == chunks;
  }

  /** What other goroutines do to a stream while a writer waits: the session's reader, another caller, and the
      end of the session. */
  datatype Meanwhile =
    | Granted(credit: uint32)
    | Delivered(bytes: seq<byte>)
    | PeerClosed(reason: Reason)
    | ReadBy(max: nat)
    | Closed
    | Aborted(reason: Reason)
    | Ended(reason: Reason)

  datatype WriteResult = WriteDone | WriteFailed | WriteFailedWith(reason: Reason) | WriteBlocked | WriteBroken

  /** What each does to the stream. */
  function Happened(s: StreamState, m: Meanwhile, threshold: uint32): StreamState {
    match m
    case Granted(credit) => StreamModel.GrantCredit(s, credit)
    case Delivered(bytes) => var r := StreamModel.Deliver(s, bytes); if r.Some? then r.value else s
    case PeerClosed(r) => StreamModel.RemoteClose(s, r)
    case ReadBy(max) => StreamModel.Read(s, max, threshold).1
    case Closed => StreamModel.Close(s)
    case Aborted(r) => StreamModel.Reset(s, r)
    case Ended(r) => StreamModel.Kill(s, r)
  }

  class Stream {
    const id: Id
    const cfg: Config
    const openPayload: seq<byte>
    var buf: seq<byte>
    var recvWindow: uint32
    var sendWindow: uint32
    var pendingCredit: uint32
    var localClosed: bool
    var remoteClosed: bool
    var reset: bool
    var resetReason: Reason

    function State(): StreamState
      reads this
    {
      StreamState(buf, recvWindow, sendWindow, pendingCredit, localClosed, remoteClosed, reset, resetReason, openPayload)
    }

    /** Kept by every method, whatever the peer sends. */
    ghost predicate Valid()
      reads this
    {
      Bounded(State(), cfg.window, cfg.Threshold())
    }

    constructor (id: Id, cfg: Config, payload: seq<byte>)
      ensures Valid() && this.id == id && this.cfg == cfg && State() == NewStream(cfg.window, payload)
    {
      this.id, this.cfg, openPayload := id, cfg, payload;
      buf, recvWindow, sendWindow, pendingCredit := [], cfg.window, cfg.window, 0;
      localClosed, remoteClosed, reset, resetReason := false, false, false, [];
    }

    /** Takes back the window that `n` bytes occupied, and releases the batched credit at the threshold. */
    method Reclaim(n: uint32) returns (credit: uint32)
      modifies this`recvWindow, this`pendingCredit
      ensures recvWindow == Wrap32(old(recvWindow) + n)
      ensures var pending := Wrap32(old(pendingCredit) + n);
              if pending >= cfg.Threshold() then credit == pending && pendingCredit == 0
              else credit == 0 && pendingCredit == pending
    {
      recvWindow := Wrap32(recvWindow + n);
      pendingCredit := Wrap32(pendingCredit + n);
      credit := 0;
      if pendingCredit >= cfg.Threshold() {
        credit, pendingCredit := pendingCredit, 0;
      }
    }

    /** Bytes off the front of a buffer that has some. */
    method Consume(max: nat) returns (r: ReadOutcome)
      requires max > 0 && buf != []
      modifies this
      ensures (r, State()) == StreamModel.Read(old(State()), max, cfg.Threshold())
    {
      var n := Min(max, |buf|);
      var bytes := buf[..n];
      buf := buf[n..];
      var credit := Reclaim(Wrap32(n));
      return ReadGot(bytes, credit);
    }

    /** Returns ReadWaits where the original blocks. */
    method Read(max: nat) returns (r: ReadOutcome)
      requires Valid()
      modifies this
      ensures Valid()
      ensures (r, State()) == StreamModel.Read(old(State()), max, cfg.Threshold())
    {
      if max == 0 {
        return ReadGot([], 0);
      }
      if |buf| == 0 {
        if reset {
          return ReadAborted(resetReason);
        } else if remoteClosed {
          return ReadEof;
        }
        return ReadWaits;
      }
      ReadBounded(State(), max, cfg.window, cfg.Threshold());
      r := Consume(max);
    }

    /** One happening, while a writer waits. */
    method Observe(m: Meanwhile)
      requires Valid() && (m.Delivered? ==> |m.bytes| <= MAX_FRAME_PAYLOAD)
      modifies this
      ensures Valid() && State() == Happened(old(State()), m, cfg.Threshold())
    {
      match m {
        case Granted(credit) => GrantCredit(credit);
        case Delivered(bytes) => var _ := Deliver(bytes);
        case PeerClosed(r) => RemoteClose(r);
        case ReadBy(max) => var _ := Read(max);
        case Closed => localClosed := true;
        case Aborted(r) => Abort(r);
        case Ended(r) => Kill(r);
      }
    }

    /** One locked region of Write: the chunk's credit is taken before the chunk is sent. */
    method TakeCredit(left: nat) returns (o: WriteOutcome)
      requires Valid() && cfg.maxFrame > 0 && left > 0
      modifies this`sendWindow
      ensures Valid()
      ensures (o, State()) == StreamModel.Write(old(State()), left, cfg.maxFrame)
      ensures o.WriteChunk? ==> 0 < o.n <= left
      ensures o.WriteChunk? && left < TWO_32 ==> o.n <= cfg.maxFrame && sendWindow + o.n == old(sendWindow)
    {
      if reset {
        return WriteAborted(resetReason);
      }
      if localClosed {
        return WriteRefused;
      }
      if sendWindow == 0 {
        return WriteWaits;
      }
      ChunkBounds(left, sendWindow, cfg.maxFrame);
      var n := left;
      if Wrap32(n) > sendWindow {
        n := sendWindow;
      }
      if Wrap32(n) > cfg.maxFrame {
        n := cfg.maxFrame;
      }
      sendWindow := Wrap32(sendWindow - Wrap32(n));
      return WriteChunk(n);
    }

    /** Sends `p` in chunks as credit allows. `during` lists what happens to the stream whenever the writer
        waits; the result is WriteBlocked if it would go on waiting after the last of them. The connection
        takes `room` frames and then fails, and the credit of the chunk that failed is gone. The chunks are
        never empty, make up exactly what was written, and fit the frame size; the writer stops short of the
        whole only on a close, an abort, an exhausted window, or a failed connection. */
    method Write(p: seq<byte>, during: seq<Meanwhile>, room: nat) returns (r: WriteResult, chunks: seq<seq<byte>>)
      requires Valid() && cfg.maxFrame > 0
      requires forall i | 0 <= i < |during| && during[i].Delivered? :: |during[i].bytes| <= MAX_FRAME_PAYLOAD
      modifies this
      ensures Valid()
      ensures Join(chunks) <= p
      ensures forall i | 0 <= i < |chunks| ::
                0 < |chunks[i]| && (|p| < TWO_32 ==> |chunks[i]| <= cfg.maxFrame)
      ensures |chunks| <= room && (r.WriteBroken? ==> |chunks| == room && Join(chunks) < p)
      ensures r.WriteDone? <==> Join(chunks) == p
      ensures r.WriteBlocked? ==> sendWindow == 0 && !localClosed && !reset
      ensures r.WriteFailedWith? ==> reset && r.reason == resetReason
      ensures r.WriteFailed? ==> localClosed && !reset
      ensures during == [] && |p| < TWO_32 && !r.WriteBroken? ==> sendWindow + |Join(chunks)| == old(sendWindow)
      ensures during == [] && |p| < TWO_32 && r.WriteBroken? ==>
                sendWindow + |Join(chunks)| < old(sendWindow) <= sendWindow + |Join(chunks)| + cfg.maxFrame
    {
      var written := 0;
      chunks := [];
      var seen := 0;
      while written < |p|
        invariant Valid() && seen <= |during| && written <= |p| && Join(chunks) == p[..written] && |chunks| <= room
        invariant forall i | 0 <= i < |chunks| ::
                    0 < |chunks[i]| && (|p| < TWO_32 ==> |chunks[i]| <= cfg.maxFrame)
        invariant during == [] && |p| < TWO_32 ==> sendWindow + written == old(sendWindow)
        decreases |p| - written, |during| - seen
      {
        var o := TakeCredit(|p| - written);
        match o {
          case WriteAborted(reason) => return WriteFailedWith(reason), chunks;
          case WriteRefused => return WriteFailed, chunks;
          case WriteWaits =>
            if seen == |during| {
              return WriteBlocked, chunks;
            }
            Observe(during[seen]);
            seen := seen + 1;
          case WriteChunk(n) =>
            if |chunks| == room {
              return WriteBroken, chunks;
            }
            JoinOne(chunks, p[written..written + n]);
            chunks := chunks + [p[written..written + n]];
            assert p[..written] + p[written..written + n] == p[..written + n];
            written := written + n;
        }
      }
      r := WriteDone;
    }

    method CloseWrite()
      requires Valid() && CanClose(State())
      modifies this
      ensures Valid() && State() == StreamModel.Close(old(State()))
    {
      localClosed := true;
    }

    method Abort(r: Reason)
      requires Valid()
      modifies this
      ensures Valid() && State() == StreamModel.Reset(old(State()), r)
    {
      reset, resetReason, localClosed, remoteClosed, buf := true, r, true, true, [];
    }

    /** False when the peer exceeded the window it was granted. */
    method Deliver(b: seq<byte>) returns (ok: bool)
      requires Valid() && |b| <= MAX_FRAME_PAYLOAD
      modifies this
      ensures Valid()
      ensures ok <==> !(old(State()).Accepting() && |b| > old(recvWindow))
      ensures StreamModel.Deliver(old(State()), b) == if ok then Some(State()) else None
      ensures !ok ==> State() == old(State())
    {
      if reset || remoteClosed {
        return true;
      }
      if Wrap32(|b|) > recvWindow {
        return false;
      }
      recvWindow := Wrap32(recvWindow - Wrap32(|b|));
      buf := buf + b;
      return true;
    }

    method GrantCredit(n: uint32)
      requires Valid()
      modifies this`sendWindow
      ensures Valid() && State() == StreamModel.GrantCredit(old(State()), n)
    {
      if sendWindow > 0xFFFF_FFFF - n {
        sendWindow := 0xFFFF_FFFF;
      } else {
        sendWindow := sendWindow + n;
      }
    }

    method RemoteClose(r: Reason)
      requires Valid()
      modifies this
      ensures Valid() && State() == StreamModel.RemoteClose(old(State()), r)
    {
      if remoteClosed || reset {
        return;
      }
      remoteClosed := true;
      if r != REASON_OK && r != [] {
        reset, resetReason, buf := true, r, [];
      }
    }

    method Kill(r: Reason)
      requires Valid()
      modifies this
      ensures Valid() && State() == StreamModel.Kill(old(State()), r)
    {
      if !reset {
        reset, resetReason, localClosed, remoteClosed := true, r, true, true;
      }
    }
  }

  /** A stream object keeps its own bounds, and a state holds its fields. */
  ghost predicate Linked(cfg: Config, id: Id, st: Stream, s: StreamState)
    reads st
  {
    st.id == id && st.cfg == cfg && st.Valid() && st.State() == s
  }

  /** All those made are linked. */
  ghost predicate AllLinked(cfg: Config, made: map<Id, Stream>, states: map<Id, StreamState>, parts: set<Stream>)
    reads parts
  {
    && (forall id | id in states :: id in made)
    && (forall id | id in made :: id in states && made[id] in parts && Linked(cfg, id, made[id], states[id]))
  }

  class Session {
    const cfg: Config
    /** The session's table is `made` restricted to `registered`; a retired stream stays in `made` for the
        callers that still hold it, until its identifier is used again. */
    var made: map<Id, Stream>
    var registered: set<Id>
    /** The Open calls the peer has not answered, and for each call that has not returned, what its
        one-place channel holds. */
    var pending: set<Id>
    var opening: map<Id, Option<Reason>>
    var acceptCh: seq<Id>
    var nextID: Id
    var standing: Standing
    /** What has been written to the connection. */
    var sent: seq<Frame>

    ghost var states: map<Id, StreamState>
    ghost var parts: set<Stream>

    ghost predicate Valid()
      reads this, parts
    {
      && AllLinked(cfg, made, states, parts)
      && |registered| <= cfg.maxStreams
    }

    ghost function Abs(): SessionState
      reads this
    {
      SessionState(cfg, states, registered, pending, opening, acceptCh, nextID, standing)
    }

    constructor (cfg: Config)
      ensures Valid() && Abs() == NewSession(cfg) && sent == [] && parts == {}
    {
      this.cfg := cfg;
      made, registered, pending, opening, acceptCh, nextID := map[], {}, {}, map[], [], cfg.FirstId();
      standing, sent, states, parts := Live, [], map[], {};
    }

    method Send(f: Frame)
      modifies this`sent
      ensures sent == old(sent) + [f]
    {
      sent := sent + [f];
    }

    method Retire(id: Id)
      requires Valid()
      modifies this`registered, this`pending
      ensures Valid() && Abs() == RetireNow(old(Abs()), id)
    {
      registered := registered - {id};
      pending := pending - {id};
    }

    method RetireIfDone(id: Id)
      requires Valid() && id in made
      modifies this`registered, this`pending
      ensures Valid() && Abs() == SessionModel.RetireIfDone(old(Abs()), id)
    {
      var st := made[id];
      if st.reset || (st.localClosed && st.remoteClosed) {
        Retire(id);
      }
    }

    /** Puts a new stream in the table. */
    method Register(id: Id, payload: seq<byte>)
      requires Valid() && |registered| < cfg.maxStreams
      modifies this`made, this`registered, this`parts, this`states
      ensures Valid() && fresh(parts - old(parts))
      ensures states == old(states)[id := NewStream(cfg.window, payload)] && registered == old(registered) + {id}
    {
      var st := new Stream(id, cfg, payload);
      made := made[id := st];
      registered := registered + {id};
      parts := parts + {st};
      states := states[id := NewStream(cfg.window, payload)];
    }

    /** Open, up to the frame it sends. */
    method Open(payload: seq<byte>) returns (id: Option<Id>, over: bool)
      requires Valid()
      modifies this
      ensures Valid() && fresh(parts - old(parts))
      ensures match OpenBegin(old(Abs()))
              case OpenOver => id == None && over && Abs() == old(Abs()) && sent == old(sent)
              case OpenTooMany => id == None && !over && Abs() == old(Abs()) && sent == old(sent)
              case OpenStarted(i, s) => id == Some(i) && Abs() == s && sent == old(sent) + [Frame(OPEN_STREAM, i, payload)]
    {
      if !standing.Live? {
        return None, true;
      }
      if |registered| >= cfg.maxStreams {
        return None, false;
      }
      id, over := Some(nextID), false;
      Register(id.value, []);
      Await(id.value);
      assert Abs() == OpenBegin(old(Abs())).s;
      Send(Frame(OPEN_STREAM, id.value, payload));
    }

    method Await(id: Id)
      requires Valid()
      modifies this`nextID, this`pending, this`opening
      ensures Valid() && nextID == Wrap32(old(nextID) + 2) && pending == old(pending) + {id}
      ensures opening == old(opening)[id := None]
    {
      nextID := Wrap32(nextID + 2);
      pending := pending + {id};
      opening := opening[id := None];
    }

    /** The answer to an Open, if one is waiting for it. */
    method CompleteOpen(id: Id, r: Reason)
      requires Valid()
      modifies this`pending, this`opening
      ensures Valid() && Abs() == SessionModel.CompleteOpen(old(Abs()), id, r)
    {
      if id in pending {
        pending := pending - {id};
        if id in opening && opening[id].None? {
          opening := opening[id := Some(r)];
        }
      }
    }

    /** The peer asks for a stream. */
    method HandleOpen(id: Id, payload: seq<byte>) returns (fault: Option<Reason>)
      requires Valid()
      modifies this
      ensures Valid() && fresh(parts - old(parts))
      ensures Answered(SessionModel.HandleOpen(old(Abs()), id, payload), old(Abs()), old(sent), fault)
    {
      if id in registered {
        return Some(MALFORMED);
      }
      if cfg.Mine(id) {
        return Some(MALFORMED);
      }
      if |registered| >= cfg.maxStreams {
        Send(CloseFrame(id, LIMIT_STREAMS));
        return None;
      }
      AcceptOpen(id, payload);
      return None;
    }

    method AcceptOpen(id: Id, payload: seq<byte>)
      requires Valid() && id !in registered && !cfg.Mine(id) && |registered| < cfg.maxStreams
      modifies this
      ensures Valid() && fresh(parts - old(parts))
      ensures var taken := old(Abs()).(streams := old(states)[id := NewStream(cfg.window, payload)],
                                       registered := old(registered) + {id});
              (Abs(), sent) == Finish(taken, Emit(OkFrame(id), Enqueue(id)), old(sent))
    {
      Register(id, payload);
      Send(OkFrame(id));
      if |acceptCh| < cfg.maxStreams {
        acceptCh := acceptCh + [id];
      } else {
        Retire(id);
        Send(CloseFrame(id, LIMIT_STREAMS));
      }
    }

    /** What a handler leaves behind: nothing changed but the fault, or the model's next state with its task
        carried out and its frames sent. */
    ghost predicate Answered(d: Dispatched, before: SessionState, sentBefore: seq<Frame>, fault: Option<Reason>)
      reads this
    {
      match d
      case Fault(r) => fault == Some(r) && Abs() == before && sent == sentBefore
      case PeerEnded(r) => fault == None && Abs() == SessionModel.Shutdown(before, r, false) && sent == sentBefore
      case Next(s, task) => fault == None && (Abs(), sent) == Finish(s, task, sentBefore)
    }

    method DeliverTo(id: Id, b: seq<byte>) returns (ok: bool)
      requires Valid() && id in made && |b| <= MAX_FRAME_PAYLOAD
      modifies this`states, parts
      ensures Valid() && id in old(states)
      ensures var r := Deliver(old(states)[id], b);
              ok == r.Some? && states == if ok then old(states)[id := r.value] else old(states)
    {
      ok := made[id].Deliver(b);
      states := if ok then states[id := made[id].State()] else states;
    }

    method GrantTo(id: Id, credit: uint32)
      requires Valid() && id in made
      modifies this`states, parts
      ensures Valid() && id in old(states) && states == old(states)[id := GrantCredit(old(states)[id], credit)]
    {
      made[id].GrantCredit(credit);
      states := states[id := made[id].State()];
    }

    method CloseAt(id: Id, r: Reason)
      requires Valid() && id in made
      modifies this`states, parts
      ensures Valid() && id in old(states) && states == old(states)[id := RemoteClose(old(states)[id], r)]
    {
      made[id].RemoteClose(r);
      states := states[id := made[id].State()];
    }

    method HandleData(id: Id, b: seq<byte>) returns (fault: Option<Reason>)
      requires Valid() && |b| <= MAX_FRAME_PAYLOAD
      modifies this`states, parts
      ensures Valid()
      ensures Answered(SessionModel.HandleData(old(Abs()), id, b), old(Abs()), old(sent), fault)
    {
      if id !in registered || id !in made {
        return None;
      }
      var ok := DeliverTo(id, b);
      return if ok then None else Some(FLOW_CONTROL);
    }

    method HandleWindow(id: Id, payload: seq<byte>) returns (fault: Option<Reason>)
      requires Valid()
      modifies this`states, parts
      ensures Valid()
      ensures Answered(SessionModel.HandleWindow(old(Abs()), id, payload), old(Abs()), old(sent), fault)
    {
      var credit := DecodeWindow(payload);
      if credit.None? {
        return Some(MALFORMED);
      }
      if id in registered && id in made {
        GrantTo(id, credit.value);
      }
      return None;
    }

    method CloseFromPeer(id: Id, r: Reason)
      requires Valid()
      modifies this`states, this`pending, this`registered, parts
      ensures Valid()
      ensures Abs() == if id in old(registered) && id in old(states)
                       then SessionModel.RetireIfDone(SetStream(old(Abs()), id, RemoteClose(old(states)[id], r)), id)
                       else old(Abs())
    {
      if id in registered && id in made {
        CloseAt(id, r);
        assert Abs() == SetStream(old(Abs()), id, RemoteClose(old(states)[id], r));
        RetireIfDone(id);
      }
    }

    method HandleClose(id: Id, payload: seq<byte>)
      requires Valid()
      modifies this`states, this`pending, this`opening, this`registered, parts
      ensures Valid()
      ensures Answered(SessionModel.HandleClose(old(Abs()), id, payload), old(Abs()), old(sent), None)
    {
      var r := if payload == [] then REASON_OK else payload;
      CompleteOpen(id, r);
      CloseFromPeer(id, r);
      CloseInSteps(old(Abs()), id, payload, sent);
    }

    /** A session that is over is silent. */
    method SendClose(id: Id, r: Reason)
      modifies this`sent
      ensures sent == if standing.Live? then old(sent) + [CloseFrame(id, r)] else old(sent)
    {
      if standing.Live? {
        Send(CloseFrame(id, r));
      }
    }

    /** Close, on a stream a caller holds: half-closes it once, tells the peer while the session lasts, and retires
        the stream if the peer had closed too. */
    method CloseStream(st: Stream, r: Reason)
      requires Valid() && st in parts && st.Valid()
      modifies this`states, this`sent, this`registered, this`pending, st
      ensures Valid()
      ensures var did := CanClose(old(st.State()));
              var retires := did && Close(old(st.State())).Finished();
              && st.State() == (if did then Close(old(st.State())) else old(st.State()))
              && states == (if old(Current(st)) && did then old(states)[st.id := st.State()] else old(states))
              && sent == (if did && standing.Live? then old(sent) + [CloseFrame(st.id, r)] else old(sent))
              && registered == (if retires then old(registered) - {st.id} else old(registered))
              && pending == (if retires then old(pending) - {st.id} else old(pending))
    {
      if CanClose(st.State()) {
        HalfClose(st);
        SendClose(st.id, r);
        if st.State().Finished() {
          Retire(st.id);
        }
      }
    }

    method HalfClose(st: Stream)
      requires Valid() && st in parts && st.Valid() && CanClose(st.State())
      modifies this`states, st
      ensures Valid() && st.State() == Close(old(st.State()))
      ensures states == if Current(st) then old(states)[st.id := st.State()] else old(states)
    {
      if st.id in made && made[st.id] == st {
        HalfCloseCurrent(st.id);
      } else {
        HalfCloseStale(st);
      }
    }

    method HalfCloseCurrent(id: Id)
      requires Valid() && id in made && CanClose(made[id].State())
      modifies this`states, made[id]
      ensures Valid() && made[id].State() == Close(old(made[id].State()))
      ensures states == old(states)[id := made[id].State()]
    {
      made[id].CloseWrite();
      states := states[id := made[id].State()];
    }

    /** The identifier has been used again, and the table does not know this stream any more. */
    method HalfCloseStale(st: Stream)
      requires Valid() && st.Valid() && !Current(st) && CanClose(st.State())
      modifies st
      ensures Valid() && st.State() == Close(old(st.State()))
    {
      assert forall k | k in made :: made[k] != st;
      st.CloseWrite();
    }

    /** Whether a stream is the latest made under its identifier. */
    ghost predicate Current(st: Stream)
      reads this
    {
      st.id in made && made[st.id] == st
    }

    method AbortStream(st: Stream, r: Reason)
      requires Valid() && st in parts && st.Valid()
      modifies this`states, st
      ensures Valid() && st.State() == Reset(old(st.State()), r)
      ensures states == if Current(st) then old(states)[st.id := st.State()] else old(states)
    {
      if st.id in made && made[st.id] == st {
        AbortStreamCurrent(st.id, r);
      } else {
        AbortStreamStale(st, r);
      }
    }

    method AbortStreamCurrent(id: Id, r: Reason)
      requires Valid() && id in made
      modifies this`states, made[id]
      ensures Valid() && made[id].State() == Reset(old(made[id].State()), r)
      ensures states == old(states)[id := made[id].State()]
    {
      made[id].Abort(r);
      states := states[id := made[id].State()];
    }

    /** The identifier has been used again, and the table does not know this stream any more. */
    method AbortStreamStale(st: Stream, r: Reason)
      requires Valid() && st.Valid() && !Current(st)
      modifies st
      ensures Valid() && st.State() == Reset(old(st.State()), r)
    {
      assert forall k | k in made :: made[k] != st;
      st.Abort(r);
    }

    /** Reset, on a stream a caller holds: aborts it once, tells the peer while the session lasts, and retires the
        stream. */
    method ResetStream(st: Stream, r: Reason)
      requires Valid() && st in parts && st.Valid()
      modifies this`states, this`sent, this`registered, this`pending, st
      ensures Valid()
      ensures var did := !old(st.reset);
              && st.State() == (if did then Reset(old(st.State()), r) else old(st.State()))
              && states == (if old(Current(st)) && did then old(states)[st.id := st.State()] else old(states))
              && sent == (if did && standing.Live? then old(sent) + [CloseFrame(st.id, r)] else old(sent))
              && registered == (if did then old(registered) - {st.id} else old(registered))
              && pending == (if did then old(pending) - {st.id} else old(pending))
    {
      if !st.reset {
        AbortStream(st, r);
        SendClose(st.id, r);
        Retire(st.id);
      }
    }

    /** Open, once it has its answer: the stream is the caller's, or it is retired. */
    method FinishOpen(id: Id) returns (ok: bool)
      requires Valid() && id in opening && opening[id].Some?
      modifies this`opening, this`registered, this`pending
      ensures Valid() && ok == (old(opening)[id] == Some(REASON_OK))
      ensures var forgotten := old(Abs()).(opening := old(opening) - {id});
              Abs() == if ok then forgotten else RetireNow(forgotten, id)
    {
      ok := opening[id].value == REASON_OK;
      opening := opening - {id};
      if !ok {
        Retire(id);
      }
    }

    /** Open, when its caller gives up: the stream is retired, and the peer not told. */
    method CancelOpen(id: Id)
      requires Valid()
      modifies this`opening, this`registered, this`pending
      ensures Valid() && Abs() == RetireNow(old(Abs()).(opening := old(opening) - {id}), id)
    {
      opening := opening - {id};
      Retire(id);
    }

    /** Routes one frame. A fault ends the session, and is for the caller to act on. */
    method Dispatch(f: Frame) returns (fault: Option<Reason>)
      requires Valid() && |f.payload| <= MAX_FRAME_PAYLOAD
      modifies this, parts
      ensures Valid() && fresh(parts - old(parts))
      ensures Answered(SessionModel.Dispatch(old(Abs()), f), old(Abs()), old(sent), fault)
    {
      if f.typ == OPEN_STREAM {
        fault := HandleOpen(f.id, f.payload);
      } else if f.typ == STREAM_OK {
        CompleteOpen(f.id, REASON_OK);
        fault := None;
      } else if f.typ == STREAM_DATA {
        fault := HandleData(f.id, f.payload);
      } else if f.typ == STREAM_WINDOW {
        fault := HandleWindow(f.id, f.payload);
      } else if f.typ == CLOSE_STREAM {
        HandleClose(f.id, f.payload);
        fault := None;
      } else if f.typ == PING {
        Send(Frame(PONG, 0, f.payload));
        fault := None;
      } else if f.typ == PONG {
        fault := None;
      } else if f.typ == ERROR {
        Shutdown(f.payload, false);
        fault := None;
      } else {
        fault := Some(MALFORMED);
      }
    }

    method KillAt(id: Id, r: Reason)
      requires Valid() && id in made
      modifies this`states, parts
      ensures Valid() && id in old(states) && states == old(states)[id := Kill(old(states)[id], r)]
    {
      made[id].Kill(r);
      states := states[id := made[id].State()];
    }

    method KillAll(r: Reason)
      requires Valid()
      modifies this`states, parts
      ensures Valid() && states == Killed(old(states), registered, r)
    {
      var left := registered;
      KilledNone(states, r);
      while left != {}
        invariant Valid() && left <= registered
        invariant states == Killed(old(states), registered - left, r)
        decreases |left|
      {
        var id :| id in left;
        KilledOne(old(states), registered, left, id, r);
        if id in made {
          KillAt(id, r);
        }
        left := left - {id};
      }
    }

    method Empty(r: Reason, fault: bool)
      requires Valid()
      modifies this`registered, this`opening, this`pending, this`standing
      ensures Valid() && registered == {} && pending == {} && opening == Told(old(opening), old(pending), r)
      ensures standing == Over(r, fault)
    {
      registered := {};
      opening := Told(opening, pending, r);
      pending := {};
      standing := Over(r, fault);
    }

    /** Ends the session, once. */
    method Shutdown(r: Reason, fault: bool)
      requires Valid()
      modifies this, parts
      ensures Valid() && parts == old(parts) && sent == old(sent)
      ensures Abs() == SessionModel.Shutdown(old(Abs()), r, fault)
    {
      if standing.Live? {
        ShutdownParts(Abs(), r, fault);
        KillAll(r);
        Empty(r, fault);
      }
    }

    /** Handles the frames the connection yields, until the session is over or reading stops, which ends it. */
    method ReadLoop(frames: seq<Frame>, stop: ReadResult)
      requires Valid() && forall i | 0 <= i < |frames| :: |frames[i].payload| <= MAX_FRAME_PAYLOAD
      modifies this, parts
      ensures Valid() && fresh(parts - old(parts)) && standing.Over?
      ensures (Abs(), sent) == Served(old(Abs()), old(sent), frames, stop)
    {
      var i := 0;
      while i < |frames| && standing.Live?
        invariant i <= |frames| && Valid() && fresh(parts - old(parts))
        invariant Serve(Abs(), sent, frames[i..]) == Serve(old(Abs()), old(sent), frames)
      {
        var rest := frames[i..];
        assert rest[0] == frames[i] && rest[1..] == frames[i + 1..];
        HandleFrame(frames[i]);
        i := i + 1;
      }
      Shutdown(ReasonFor(stop), Accuses(stop));
    }

    method HandleFrame(f: Frame)
      requires Valid() && |f.payload| <= MAX_FRAME_PAYLOAD
      modifies this, parts
      ensures Valid() && fresh(parts - old(parts))
      ensures var (s, task) := Receive(old(Abs()), f); (Abs(), sent) == Finish(s, task, old(sent))
    {
      if Wrap32(|f.payload|) > cfg.maxFrame {
        Shutdown(LIMIT_FRAME, true);
      } else {
        var fault := Dispatch(f);
        if fault.Some? {
          Shutdown(fault.value, true);
        }
      }
    }
  }

  ghost function Killed(states: map<Id, StreamState>, ids: set<Id>, r: Reason): map<Id, StreamState> {
    map id | id in states :: if id in ids then Kill(states[id], r) else states[id]
  }

  lemma KilledNone(states: map<Id, StreamState>, r: Reason)
    ensures forall ids: set<Id> :: Killed(states, ids - ids, r) == states
  {
  }

  lemma KilledOne(states: map<Id, StreamState>, all: set<Id>, left: set<Id>, id: Id, r: Reason)
    requires id in left && left <= all
    ensures var before, after := Killed(states, all - left, r), Killed(states, all - (left - {id}), r);
            before.Keys == states.Keys &&
            if id in states then after == before[id := Kill(before[id], r)] else after == before
  {
  }

  /** What the Open calls still waiting are told. */
  function Told(opening: map<Id, Option<Reason>>, pending: set<Id>, r: Reason): map<Id, Option<Reason>> {
    map id | id in opening :: if id in pending && opening[id].None? then Some(r) else opening[id]
  }

  lemma ShutdownParts(s: SessionState, r: Reason, fault: bool)
    requires s.standing.Live?
    ensures SessionModel.Shutdown(s, r, fault) ==
            s.(streams := Killed(s.streams, s.registered, r), registered := {}, pending := {},
               opening := Told(s.opening, s.pending, r), standing := Over(r, fault))
  {
  }

  /** What the read loop makes of a list of frames: each is received, and its task carried out, before the
      next, and nothing is read once the session is over. */
  function Serve(s: SessionState, sent: seq<Frame>, frames: seq<Frame>): (SessionState, seq<Frame>)
    decreases |frames|
  {
    if frames == [] || !s.standing.Live? then (s, sent)
    else
      var (s1, task) := Receive(s, frames[0]);
      var (s2, out) := Finish(s1, task, sent);
      Serve(s2, out, frames[1..])
  }

  /** A close frame answers an Open, if one waits, then closes the stream, if it is there, and retires it if that
      finishes it. */
  lemma CloseInSteps(s: SessionState, id: Id, payload: seq<byte>, sent: seq<Frame>)
    ensures var r := if payload == [] then REASON_OK else payload;
            var s1 := SessionModel.CompleteOpen(s, id, r);
            var d := SessionModel.HandleClose(s, id, payload);
            d.Next? && Finish(d.s, d.task, sent) ==
            (if id in s1.registered && id in s1.streams
             then SessionModel.RetireIfDone(SetStream(s1, id, RemoteClose(s1.streams[id], r)), id) else s1, sent)
  {
  }

  /** Whether a failure to read is the peer's fault, rather than the connection's. */
  predicate Accuses(stop: ReadResult) {
    stop.Refused? || stop.TruncatedPayload?
  }

  /** And when reading stops with the session still live, it ends for that reason. */
  function Served(s: SessionState, sent: seq<Frame>, frames: seq<Frame>, stop: ReadResult): (SessionState, seq<Frame>) {
    var (s', out) := Serve(s, sent, frames);
    (SessionModel.Shutdown(s', ReasonFor(stop), Accuses(stop)), out)
  }

  /** A task carried out to its end. */
  function Finish(s: SessionState, t: Task, sent: seq<Frame>): (SessionState, seq<Frame>)
    decreases t
  {
    match t
    case Done => (s, sent)
    case Emit(f, next) => Finish(s, next, sent + [f])
    case CheckRetire(id) => (RetireIfDone(s, id), sent)
    case Retire(id) => (RetireNow(s, id), sent)
    case Enqueue(id) =>
      if |s.acceptQ| < s.cfg.maxStreams then (s.(acceptQ := s.acceptQ + [id]), sent)
      else (RetireNow(s, id), sent + [CloseFrame(id, LIMIT_STREAMS)])
  }
}
