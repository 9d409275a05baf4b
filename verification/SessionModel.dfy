/** A session as a value: the stream table, the open handshake, and what each frame does.

    Writing a frame and the bookkeeping that follows it happen outside the session's lock, so the
    functions here return them as a `Task` still to be performed.
 */
module SessionModel {
  import opened Bytes
  import opened Frames
  import opened StreamModel

  type Id = uint32

  const LIMIT_STREAMS: Reason := Ascii("limit_streams_exceeded")
  const LIMIT_FRAME: Reason := Ascii("limit_frame_too_large")
  const MALFORMED: Reason := Ascii("protocol_malformed_frame")
  const FLOW_CONTROL: Reason := Ascii("flow_control_violation")

  /** The limits both ends agreed on, and which half of the identifier space is this end's own. */
  datatype Config = Config(maxFrame: uint32, window: uint32, maxStreams: uint32, isClient: bool) {
    /** What the handshake admits. */
    predicate Valid() {
      0 < maxFrame <= MAX_FRAME_PAYLOAD && 0 < window && 0 < maxStreams
    }

    function Threshold(): (t: uint32)
      ensures t > 0 && (window > 0 ==> t <= window)
    {
      if window / 2 == 0 then 1 else window / 2
    }

    /** Whether an identifier is numbered from this end's half. */
    predicate Mine(id: Id) {
      (id % 2 == 1) == isClient
    }

    function FirstId(): Id {
      if isClient then 1 else 2
    }
  }

  datatype Standing = Live | Over(reason: Reason, fault: bool)

  /** `streams` holds every stream object made so far (the latest under each identifier);
      `registered` says which of them the session's table still holds. `opening` holds the Open calls
      that have not returned, each with what its acknowledgement channel carries. */
  datatype SessionState = SessionState(
    cfg: Config,
    streams: map<Id, StreamState>,
    registered: set<Id>,
    pending: set<Id>,
    opening: map<Id, Option<Reason>>,
    acceptQ: seq<Id>,
    nextID: Id,
    standing: Standing)

  /** Work left to a goroutine once it has released the lock. */
  datatype Task =
    | Done
    | Emit(frame: Frame, next: Task)
    | CheckRetire(id: Id)
    | Retire(id: Id)
    | Enqueue(id: Id)

  function NewSession(cfg: Config): SessionState {
    SessionState(cfg, map[], {}, {}, map[], [], cfg.FirstId(), Live)
  }

  function CloseFrame(id: Id, r: Reason): Frame { Frame(CLOSE_STREAM, id, r) }
  function OkFrame(id: Id): Frame { Frame(STREAM_OK, id, []) }
  function DataFrame(id: Id, b: seq<byte>): Frame { Frame(STREAM_DATA, id, b) }
  function WindowFrame(id: Id, credit: uint32): Frame { Frame(STREAM_WINDOW, id, EncodeWindow(credit)) }

  function SetStream(s: SessionState, id: Id, st: StreamState): SessionState {
    s.(streams := s.streams[id := st])
  }

  // Opening

  datatype OpenOutcome = OpenOver | OpenTooMany | OpenStarted(id: Id, s: SessionState)

  function OpenBegin(s: SessionState): OpenOutcome {
    if !s.standing.Live? then OpenOver
    else if |s.registered| >= s.cfg.maxStreams then OpenTooMany
    else
      var id := s.nextID;
      OpenStarted(id,
        s.(nextID := Wrap32(s.nextID + 2),
           streams := s.streams[id := NewStream(s.cfg.window, [])],
           registered := s.registered + {id},
           pending := s.pending + {id},
           opening := s.opening[id := None]))
  }

  function CompleteOpen(s: SessionState, id: Id, r: Reason): SessionState {
    if id !in s.pending then s
    else
      s.(pending := s.pending - {id},
         opening := if id in s.opening && s.opening[id].None? then s.opening[id := Some(r)] else s.opening)
  }

  function RetireNow(s: SessionState, id: Id): SessionState {
    s.(registered := s.registered - {id}, pending := s.pending - {id})
  }

  function RetireIfDone(s: SessionState, id: Id): SessionState {
    if id in s.streams && s.streams[id].Finished() then RetireNow(s, id) else s
  }

  // Frames from the peer

  datatype Dispatched =
    | Fault(reason: Reason)
    | PeerEnded(reason: Reason)
    | Next(s: SessionState, task: Task)

  function HandleOpen(s: SessionState, id: Id, payload: seq<byte>): Dispatched {
    if id in s.registered then Fault(MALFORMED)
    else if s.cfg.Mine(id) then Fault(MALFORMED)
    else if |s.registered| >= s.cfg.maxStreams then
      Next(s, Emit(CloseFrame(id, LIMIT_STREAMS), Done))
    else
      Next(s.(streams := s.streams[id := NewStream(s.cfg.window, payload)],
              registered := s.registered + {id}),
           Emit(OkFrame(id), Enqueue(id)))
  }

  function HandleData(s: SessionState, id: Id, b: seq<byte>): Dispatched {
    if id !in s.registered || id !in s.streams then Next(s, Done)
    else
      match Deliver(s.streams[id], b)
      case None => Fault(FLOW_CONTROL)
      case Some(st) => Next(SetStream(s, id, st), Done)
  }

  function HandleWindow(s: SessionState, id: Id, payload: seq<byte>): Dispatched {
    match DecodeWindow(payload)
    case None => Fault(MALFORMED)
    case Some(credit) =>
      if id !in s.registered || id !in s.streams then Next(s, Done)
      else Next(SetStream(s, id, GrantCredit(s.streams[id], credit)), Done)
  }

  function HandleClose(s: SessionState, id: Id, payload: seq<byte>): Dispatched {
    var r := if payload == [] then REASON_OK else payload;
    var s1 := CompleteOpen(s, id, r);
    if id !in s1.registered || id !in s1.streams then Next(s1, Done)
    else Next(SetStream(s1, id, RemoteClose(s1.streams[id], r)), CheckRetire(id))
  }

  function Dispatch(s: SessionState, f: Frame): Dispatched {
    if f.typ == OPEN_STREAM then HandleOpen(s, f.id, f.payload)
    else if f.typ == STREAM_OK then Next(CompleteOpen(s, f.id, REASON_OK), Done)
    else if f.typ == STREAM_DATA then HandleData(s, f.id, f.payload)
    else if f.typ == STREAM_WINDOW then HandleWindow(s, f.id, f.payload)
    else if f.typ == CLOSE_STREAM then HandleClose(s, f.id, f.payload)
    else if f.typ == PING then Next(s, Emit(Frame(PONG, 0, f.payload), Done))
    else if f.typ == PONG then Next(s, Done)
    else if f.typ == ERROR then PeerEnded(f.payload)
    else Fault(MALFORMED)
  }

  /** Ends the session: the table is emptied, every stream in it is killed, and every Open still
      waiting is told why. */
  function Shutdown(s: SessionState, r: Reason, fault: bool): SessionState {
    if !s.standing.Live? then s
    else
      s.(streams := map id | id in s.streams ::
           if id in s.registered then Kill(s.streams[id], r) else s.streams[id],
         registered := {},
         pending := {},
         opening := map id | id in s.opening ::
           if id in s.pending && s.opening[id].None? then Some(r) else s.opening[id],
         standing := Over(r, fault))
  }

  /** One turn of the read loop: the negotiated limit, then dispatch. */
  function Receive(s: SessionState, f: Frame): (SessionState, Task) {
    if Wrap32(|f.payload|) > s.cfg.maxFrame then (Shutdown(s, LIMIT_FRAME, true), Done)
    else
      match Dispatch(s, f)
      case Fault(r) => (Shutdown(s, r, true), Done)
      case PeerEnded(r) => (Shutdown(s, r, false), Done)
      case Next(s', task) => (s', task)
  }
}
