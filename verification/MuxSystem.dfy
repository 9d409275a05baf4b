/** Two sessions over one connection, as a step system.

    A step is one locked region of one goroutine, or one frame written, or one frame read. What a
    goroutine took under the lock and has not yet written is in its endpoint's `hand`; the single
    reader's unfinished work is in `reader`. Some steps merge neighbouring regions of one goroutine: the
    reader's lookup of a stream with what it does to it, and its answer to a waiting Open before that; the
    test whether a stream is finished with its retirement; and the end of a session with the end of each
    of its streams.
 */
module MuxSystem {
  import opened Bytes
  import opened Frames
  import opened StreamModel
  import opened SessionModel

  const MAX_OPENS: nat := 0x8000_0000

  /** `held` are the streams whose handles callers have. The rest are histories, by stream: the bytes
      Write has accepted, the bytes Read has returned, and how many bytes arrived on a stream that is not
      aborted but whose peer had already closed, and so were dropped. */
  datatype Endpoint = Endpoint(
    sess: SessionState,
    hand: seq<Task>,
    reader: Task,
    held: set<Id>,
    opens: nat,
    written: map<Id, seq<byte>>,
    got: map<Id, seq<byte>>,
    late: map<Id, nat>)
  {
    predicate Has(id: Id) { id in sess.streams }

    predicate Live() { sess.standing.Live? }

    function Written(id: Id): seq<byte> { if id in written then written[id] else [] }

    function Got(id: Id): seq<byte> { if id in got then got[id] else [] }

    function Late(id: Id): nat { if id in late then late[id] else 0 }

    /** Nothing is between a lock and what follows it. */
    predicate Quiet() {
      reader.Done? && forall k | 0 <= k < |hand| :: hand[k].Done?
    }
  }

  function NewEndpoint(cfg: Config): Endpoint {
    Endpoint(NewSession(cfg), [], Done, {}, 0, map[], map[], map[])
  }

  datatype Op =
    | OpOpen(payload: seq<byte>)
    | OpOpenReturn(id: Id)
    | OpOpenCancel(id: Id)
    | OpAccept
    | OpWrite(id: Id, p: seq<byte>)
    | OpRead(id: Id, max: nat)
    | OpClose(id: Id, r: Reason)
    | OpReset(id: Id, r: Reason)
    | OpPing
    | OpEnd(tell: bool, r: Reason)
    | OpPerform(k: nat, lost: bool)
    | OpReader(lost: bool)

  /** What this end may do next. Callers keep payloads and reasons within what the codec's writer takes,
      write less than four gigabytes at a time and open fewer than 2^31 streams; a frame is only lost
      once the session is over. */
  predicate Enabled(e: Endpoint, op: Op) {
    var s := e.sess;
    match op
    case OpOpen(payload) => |payload| <= MAX_FRAME_PAYLOAD && e.opens < MAX_OPENS && OpenBegin(s).OpenStarted?
    case OpOpenReturn(id) => id in s.opening && s.opening[id].Some?
    case OpOpenCancel(id) => id in s.opening
    case OpAccept => s.acceptQ != []
    case OpWrite(id, p) =>
      id in e.held && id in s.streams && 0 < |p| < TWO_32 && Write(s.streams[id], |p|, s.cfg.maxFrame).0.WriteChunk?
    case OpRead(id, max) => id in e.held && id in s.streams && max > 0
    case OpClose(id, r) => id in e.held && id in s.streams && CanClose(s.streams[id]) && |r| <= MAX_FRAME_PAYLOAD
    case OpReset(id, r) => id in e.held && id in s.streams && !s.streams[id].reset && |r| <= MAX_FRAME_PAYLOAD
    case OpPing => e.Live()
    case OpEnd(_, r) => e.Live() && |r| <= MAX_FRAME_PAYLOAD
    case OpPerform(k, lost) => k < |e.hand| && (lost ==> !e.Live())
    case OpReader(lost) => lost ==> !e.Live()
  }

  // The operations, one function each

  function ActOpen(e: Endpoint, payload: seq<byte>): Endpoint
    requires OpenBegin(e.sess).OpenStarted?
  {
    var o := OpenBegin(e.sess);
    e.(sess := o.s, opens := e.opens + 1,
       hand := e.hand + [Emit(Frame(OPEN_STREAM, o.id, payload), Done)])
  }

  function ActOpenReturn(e: Endpoint, id: Id): Endpoint
    requires id in e.sess.opening && e.sess.opening[id].Some?
  {
    var s := e.sess.(opening := e.sess.opening - {id});
    if e.sess.opening[id].value == REASON_OK then e.(sess := s, held := e.held + {id})
    else e.(sess := RetireNow(s, id))
  }

  function ActOpenCancel(e: Endpoint, id: Id): Endpoint {
    e.(sess := RetireNow(e.sess.(opening := e.sess.opening - {id}), id))
  }

  function ActAccept(e: Endpoint): Endpoint
    requires e.sess.acceptQ != []
  {
    e.(sess := e.sess.(acceptQ := e.sess.acceptQ[1..]), held := e.held + {e.sess.acceptQ[0]})
  }

  function ActWrite(e: Endpoint, id: Id, p: seq<byte>): Endpoint
    requires id in e.sess.streams && 0 < |p| < TWO_32
    requires Write(e.sess.streams[id], |p|, e.sess.cfg.maxFrame).0.WriteChunk?
  {
    var (w, st) := Write(e.sess.streams[id], |p|, e.sess.cfg.maxFrame);
    var chunk := p[..w.n];
    e.(sess := SetStream(e.sess, id, st),
       hand := e.hand + [Emit(DataFrame(id, chunk), Done)],
       written := e.written[id := e.Written(id) + chunk])
  }

  function ActRead(e: Endpoint, id: Id, max: nat): Endpoint
    requires id in e.sess.streams
  {
    var (r, st) := Read(e.sess.streams[id], max, e.sess.cfg.Threshold());
    if !r.ReadGot? then e
    else
      e.(sess := SetStream(e.sess, id, st),
         hand := e.hand + (if r.credit > 0 then [Emit(WindowFrame(id, r.credit), Done)] else []),
         got := e.got[id := e.Got(id) + r.bytes])
  }

  function ActClose(e: Endpoint, id: Id, r: Reason): Endpoint
    requires id in e.sess.streams
  {
    e.(sess := SetStream(e.sess, id, Close(e.sess.streams[id])),
       hand := e.hand + [Emit(CloseFrame(id, r), CheckRetire(id))])
  }

  function ActReset(e: Endpoint, id: Id, r: Reason): Endpoint
    requires id in e.sess.streams
  {
    e.(sess := SetStream(e.sess, id, Reset(e.sess.streams[id], r)),
       hand := e.hand + [Emit(CloseFrame(id, r), Retire(id))])
  }

  function ActPing(e: Endpoint): Endpoint {
    e.(hand := e.hand + [Emit(Frame(PING, 0, []), Done)])
  }

  /** One step of a task: what becomes of the session, what is left, and what reaches the wire. */
  function Perform(s: SessionState, t: Task, lost: bool): (SessionState, Task, seq<Frame>) {
    match t
    case Done => (s, Done, [])
    case Emit(f, next) => (s, next, if lost then [] else [f])
    case CheckRetire(id) => (RetireIfDone(s, id), Done, [])
    case Retire(id) => (RetireNow(s, id), Done, [])
    case Enqueue(id) =>
      if |s.acceptQ| < s.cfg.maxStreams then (s.(acceptQ := s.acceptQ + [id]), Done, [])
      else (RetireNow(s, id), Emit(CloseFrame(id, LIMIT_STREAMS), Done), [])
  }

  function ActPerform(e: Endpoint, k: nat, lost: bool): (Endpoint, seq<Frame>)
    requires k < |e.hand|
  {
    var (s, t, out) := Perform(e.sess, e.hand[k], lost);
    (e.(sess := s, hand := e.hand[k := t]), out)
  }

  function ActReader(e: Endpoint, lost: bool): (Endpoint, seq<Frame>) {
    var (s, t, out) := Perform(e.sess, e.reader, lost);
    (e.(sess := s, reader := t), out)
  }

  /** The endpoint after an operation, and the frames it put on the wire. */
  function Act(e: Endpoint, op: Op): (Endpoint, seq<Frame>)
    requires Enabled(e, op)
  {
    match op
    case OpOpen(payload) => (ActOpen(e, payload), [])
    case OpOpenReturn(id) => (ActOpenReturn(e, id), [])
    case OpOpenCancel(id) => (ActOpenCancel(e, id), [])
    case OpAccept => (ActAccept(e), [])
    case OpWrite(id, p) => (ActWrite(e, id, p), [])
    case OpRead(id, max) => (ActRead(e, id, max), [])
    case OpClose(id, r) => (ActClose(e, id, r), [])
    case OpReset(id, r) => (ActReset(e, id, r), [])
    case OpPing => (ActPing(e), [])
    case OpEnd(tell, r) =>
      (e.(sess := Shutdown(e.sess, r, false)), if tell then [Frame(ERROR, 0, r)] else [])
    case OpPerform(k, lost) => ActPerform(e, k, lost)
    case OpReader(lost) => ActReader(e, lost)
  }

  /** The reader takes the next frame only when it is done with the one before. */
  predicate CanReceive(e: Endpoint) {
    e.Live() && e.reader.Done?
  }

  predicate DropsLate(e: Endpoint, f: Frame) {
    && f.typ == STREAM_DATA && Wrap32(|f.payload|) <= e.sess.cfg.maxFrame
    && f.id in e.sess.registered && e.Has(f.id)
    && e.sess.streams[f.id].remoteClosed && !e.sess.streams[f.id].reset
  }

  function Arrive(e: Endpoint, f: Frame): Endpoint {
    var (s, t) := Receive(e.sess, f);
    e.(sess := s, reader := t,
       late := if DropsLate(e, f) then e.late[f.id := e.Late(f.id) + |f.payload|] else e.late)
  }

  // The pair

  datatype Side = Client | Server

  function Other(p: Side): Side {
    if p.Client? then Server else Client
  }

  /** `cs` carries the client's frames to the server in order, `sc` the server's. */
  datatype Sys = Sys(c: Endpoint, s: Endpoint, cs: seq<Frame>, sc: seq<Frame>) {
    function End(p: Side): Endpoint { if p.Client? then c else s }

    function Wire(p: Side): seq<Frame> { if p.Client? then cs else sc }

    function WithEnd(p: Side, e: Endpoint): Sys {
      if p.Client? then this.(c := e) else this.(s := e)
    }

    function WithWire(p: Side, w: seq<Frame>): Sys {
      if p.Client? then this.(cs := w) else this.(sc := w)
    }
  }

  datatype Step = Local(p: Side, op: Op) | Incoming(p: Side)

  predicate CanStep(sys: Sys, step: Step) {
    match step
    case Local(p, op) => Enabled(sys.End(p), op)
    case Incoming(p) => CanReceive(sys.End(p)) && sys.Wire(Other(p)) != []
  }

  function Take(sys: Sys, step: Step): Sys
    requires CanStep(sys, step)
  {
    match step
    case Local(p, op) =>
      var (e, out) := Act(sys.End(p), op);
      sys.WithEnd(p, e).WithWire(p, sys.Wire(p) + out)
    case Incoming(p) =>
      var q := Other(p);
      sys.WithEnd(p, Arrive(sys.End(p), sys.Wire(q)[0])).WithWire(q, sys.Wire(q)[1..])
  }

  function Start(cfg: Config): Sys {
    Sys(NewEndpoint(cfg.(isClient := true)), NewEndpoint(cfg.(isClient := false)), [], [])
  }

  /** The state after a sequence of steps, if each was possible when its turn came. */
  function Run(sys: Sys, steps: seq<Step>): Option<Sys>
    decreases |steps|
  {
    if steps == [] then Some(sys)
    else if !CanStep(sys, steps[0]) then None
    else Run(Take(sys, steps[0]), steps[1..])
  }
}
