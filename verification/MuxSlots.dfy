/** Stream slots never leak: a finished stream leaves the table as soon as whoever finished it is done,
    and a stream whose handle is out is in the table or past writing. */
module MuxSlots {
  import opened Bytes
  import opened Frames
  import opened StreamModel
  import opened SessionModel
  import opened MuxSystem
  import opened MuxFlow
  import opened MuxInvariant
  import opened MuxLocal
  import opened MuxRemote
  import opened MuxTheorems

  predicate WriterDone(e: Endpoint, id: Id)
    requires e.Has(id)
  {
    e.sess.streams[id].localClosed || e.sess.streams[id].reset
  }

  /** The stream the reader is about to queue for acceptance. */
  function Enqueues(t: Task): Option<Id> {
    match t
    case Enqueue(id) => Some(id)
    case Emit(_, next) => Enqueues(next)
    case _ => None
  }

  /** Somebody has, or is about to be given, this stream. */
  predicate Handle(e: Endpoint, id: Id) {
    id in e.held || id in e.sess.opening || id in e.sess.acceptQ || Enqueues(e.reader) == Some(id)
  }

  predicate WillRetire(t: Task, id: Id) {
    match t
    case CheckRetire(id') => id' == id
    case Retire(id') => id' == id
    case Emit(_, next) => WillRetire(next, id)
    case _ => false
  }

  /** What callers leave in hand: at most one frame, then at most one look at the table. */
  predicate CallShaped(t: Task) {
    match t
    case Emit(_, next) => next.Done? || next.CheckRetire? || next.Retire?
    case Enqueue(_) => false
    case _ => true
  }

  /** The stream a task will take out of the table whatever its state. */
  function Forced(t: Task): Option<Id> {
    match t
    case Retire(id) => Some(id)
    case Emit(_, Retire(id)) => Some(id)
    case _ => None
  }

  /** What the reader leaves unfinished. */
  predicate ReaderShaped(t: Task) {
    match t
    case Emit(_, next) => next.Done? || next.Enqueue?
    case Retire(_) => false
    case _ => true
  }

  predicate ForcedOk(e: Endpoint, t: Task) {
    Forced(t).Some? ==> e.Has(Forced(t).value) && e.sess.streams[Forced(t).value].reset
  }

  /** Some goroutine is about to check whether the stream is finished. */
  ghost predicate Due(e: Endpoint, id: Id) {
    WillRetire(e.reader, id) || exists k :: 0 <= k < |e.hand| && WillRetire(e.hand[k], id)
  }

  ghost predicate HandShaped(e: Endpoint) {
    && (forall k | 0 <= k < |e.hand| :: CallShaped(e.hand[k]) && ForcedOk(e, e.hand[k]))
    && ReaderShaped(e.reader)
  }

  ghost predicate HandlesSound(e: Endpoint) {
    forall id: Id | Handle(e, id) :: e.Has(id) && (id in e.sess.registered || WriterDone(e, id))
  }

  ghost predicate HandlesApart(e: Endpoint) {
    && (Enqueues(e.reader).Some? ==>
          var id := Enqueues(e.reader).value;
          id !in e.held && id !in e.sess.acceptQ && !e.sess.cfg.Mine(id))
    && (forall id | id in e.sess.opening :: id !in e.held)
  }

  ghost predicate SlotsSound(e: Endpoint) {
    e.Live() ==> forall id | id in e.sess.registered && e.Has(id) && e.sess.streams[id].Finished() :: Due(e, id)
  }

  ghost predicate SlotInv(e: Endpoint) {
    HandShaped(e) && HandlesSound(e) && HandlesApart(e) && SlotsSound(e)
  }

  // Calls

  lemma DueStays(e: Endpoint, e': Endpoint, id: Id)
    requires Due(e, id) && e'.reader == e.reader && |e.hand| <= |e'.hand|
    requires forall k | 0 <= k < |e.hand| :: e'.hand[k] == e.hand[k]
    ensures Due(e', id)
  {
    if !WillRetire(e.reader, id) {
      var k :| 0 <= k < |e.hand| && WillRetire(e.hand[k], id);
      assert WillRetire(e'.hand[k], id);
    }
  }

  /** A call on one stream changes only that stream and adds at most one task. */
  lemma StreamOpShape(e: Endpoint, op: Op)
    requires Enabled(e, op) && OnStream(op)
    ensures var e' := Act(e, op).0;
            && e'.reader == e.reader && e'.held == e.held
            && e'.sess == e.sess.(streams := e'.sess.streams)
            && |e.hand| <= |e'.hand| <= |e.hand| + 1
            && (forall k | 0 <= k < |e.hand| :: e'.hand[k] == e.hand[k])
            && (|e'.hand| > |e.hand| ==> CallShaped(e'.hand[|e.hand|]))
            && (forall id | e.Has(id) && id != op.id :: e'.Has(id) && e'.sess.streams[id] == e.sess.streams[id])
  {
  }

  lemma StreamOpOwn(e: Endpoint, op: Op)
    requires Enabled(e, op) && OnStream(op)
    ensures var e' := Act(e, op).0;
            && e'.Has(op.id)
            && (e'.sess.streams[op.id].Finished() && !e.sess.streams[op.id].Finished() ==>
                  |e'.hand| > |e.hand| && WillRetire(e'.hand[|e.hand|], op.id))
            && (|e'.hand| > |e.hand| ==> ForcedOk(e', e'.hand[|e.hand|]))
  {
  }

  lemma StreamOpSlots(e: Endpoint, op: Op)
    requires SlotInv(e) && Enabled(e, op) && OnStream(op)
    ensures SlotInv(Act(e, op).0)
  {
    var e' := Act(e, op).0;
    StreamOpShape(e, op);
    StreamOpOwn(e, op);
    StreamOpEvolves(e, op);
    HandStaysShaped(e, e');
    forall id: Id | Handle(e', id) ensures e'.Has(id) && (id in e'.sess.registered || WriterDone(e', id)) {
      assert Handle(e, id);
      assert StreamEvolves(e.sess.streams[id], e'.sess.streams[id]);
    }
    if e.Live() {
      forall id | id in e'.sess.registered && e'.Has(id) && e'.sess.streams[id].Finished() ensures Due(e', id) {
        if e.sess.streams[id].Finished() {
          assert Due(e, id);
          DueStays(e, e', id);
        } else {
          assert id == op.id && WillRetire(e'.hand[|e.hand|], id);
        }
      }
    }
  }

  lemma ForcedStays(e: Endpoint, e': Endpoint, t: Task)
    requires ForcedOk(e, t) && Evolves(e, e')
    ensures ForcedOk(e', t)
  {
    if Forced(t).Some? {
      assert StreamEvolves(e.sess.streams[Forced(t).value], e'.sess.streams[Forced(t).value]);
    }
  }

  lemma HandStaysShaped(e: Endpoint, e': Endpoint)
    requires HandShaped(e) && Evolves(e, e')
    requires e'.reader == e.reader && |e.hand| <= |e'.hand| <= |e.hand| + 1
    requires forall k | 0 <= k < |e.hand| :: e'.hand[k] == e.hand[k]
    requires |e'.hand| > |e.hand| ==> CallShaped(e'.hand[|e.hand|]) && ForcedOk(e', e'.hand[|e.hand|])
    ensures HandShaped(e')
  {
    forall k | 0 <= k < |e.hand| ensures ForcedOk(e', e.hand[k]) {
      ForcedStays(e, e', e.hand[k]);
    }
  }

  // Opening and accepting

  lemma OpenSlots(e: Endpoint, payload: seq<byte>)
    requires SlotInv(e) && EndSound(e) && Enabled(e, OpOpen(payload))
    ensures SlotInv(ActOpen(e, payload))
  {
    var e' := ActOpen(e, payload);
    NextIdFresh(e);
    ActEvolves(e, OpOpen(payload));
    HandStaysShaped(e, e');
    OpenHandles(e, payload);
    OpenSlotsSound(e, payload);
  }

  lemma OpenHandles(e: Endpoint, payload: seq<byte>)
    requires HandlesSound(e) && HandlesApart(e) && OpenBegin(e.sess).OpenStarted?
    requires !e.Has(e.sess.nextID) && e.sess.cfg.Mine(e.sess.nextID)
    ensures HandlesSound(ActOpen(e, payload)) && HandlesApart(ActOpen(e, payload))
  {
    var e' := ActOpen(e, payload);
    assert !Handle(e, e.sess.nextID);
    forall id: Id | Handle(e', id) ensures e'.Has(id) && (id in e'.sess.registered || WriterDone(e', id)) {
      if id != e.sess.nextID {
        assert Handle(e, id);
      }
    }
  }

  lemma OpenSlotsSound(e: Endpoint, payload: seq<byte>)
    requires SlotsSound(e) && OpenBegin(e.sess).OpenStarted?
    ensures SlotsSound(ActOpen(e, payload))
  {
    var e' := ActOpen(e, payload);
    forall id | id in e'.sess.registered && e'.Has(id) && e'.sess.streams[id].Finished() ensures Due(e', id) {
      assert Due(e, id);
      DueStays(e, e', id);
    }
  }

  /** Retiring a stream nobody holds, or one past writing, keeps the slots sound. */
  lemma RetireSlots(e: Endpoint, e': Endpoint, id0: Id)
    requires SlotInv(e) && e'.sess.streams == e.sess.streams && e'.sess.standing == e.sess.standing
    requires e'.sess.registered == e.sess.registered - {id0} && e'.hand == e.hand
    requires e'.reader == e.reader
    requires forall id | Handle(e', id) :: Handle(e, id) && (id != id0 || WriterDone(e, id))
    ensures HandShaped(e') && HandlesSound(e') && SlotsSound(e')
  {
    if e.Live() {
      forall id | id in e'.sess.registered && e'.Has(id) && e'.sess.streams[id].Finished() ensures Due(e', id) {
        assert Due(e, id);
        DueStays(e, e', id);
      }
    }
  }

  lemma HandleOpSlots(e: Endpoint, op: Op)
    requires SlotInv(e) && EndSound(e) && Enabled(e, op) && (op.OpOpenReturn? || op.OpOpenCancel? || op.OpAccept?)
    ensures SlotInv(Act(e, op).0)
  {
    var e' := Act(e, op).0;
    match op
    case OpAccept => SameTableSlots(e, e');
    case OpOpenReturn(id) =>
      if e.sess.opening[id].value == REASON_OK {
        SameTableSlots(e, e');
      } else {
        OpeningOnly(e, id);
        RetireSlots(e, e', id);
      }
    case OpOpenCancel(id) =>
      OpeningOnly(e, id);
      RetireSlots(e, e', id);
  }

  lemma OpeningOnly(e: Endpoint, id: Id)
    requires EndSound(e) && HandlesApart(e) && id in e.sess.opening
    ensures id !in e.held && id !in e.sess.acceptQ && Enqueues(e.reader) != Some(id)
  {
    assert e.sess.cfg.Mine(id);
  }

  lemma SameTableSlots(e: Endpoint, e': Endpoint)
    requires SlotInv(e) && e'.sess.streams == e.sess.streams && e'.sess.standing == e.sess.standing
    requires e'.sess.registered == e.sess.registered && e'.hand == e.hand && e'.reader == e.reader
    requires forall id | Handle(e', id) :: Handle(e, id)
    ensures HandShaped(e') && HandlesSound(e') && SlotsSound(e')
  {
    if e.Live() {
      forall id | id in e'.sess.registered && e'.Has(id) && e'.sess.streams[id].Finished() ensures Due(e', id) {
        assert Due(e, id);
        DueStays(e, e', id);
      }
    }
  }

  lemma PingSlots(e: Endpoint)
    requires SlotInv(e)
    ensures SlotInv(ActPing(e))
  {
    var e' := ActPing(e);
    HandStaysShaped(e, e');
    forall id: Id | Handle(e', id) ensures e'.Has(id) && (id in e'.sess.registered || WriterDone(e', id)) {
      assert Handle(e, id);
    }
    if e.Live() {
      forall id | id in e'.sess.registered && e'.Has(id) && e'.sess.streams[id].Finished() ensures Due(e', id) {
        assert Due(e, id);
        DueStays(e, e', id);
      }
    }
  }

  lemma ShutdownSlots(e: Endpoint, e': Endpoint, r: Reason, fault: bool)
    requires SlotInv(e) && e.Live()
    requires e'.sess == Shutdown(e.sess, r, fault) && e'.hand == e.hand && e'.held == e.held
    requires e'.reader == e.reader
    ensures SlotInv(e')
  {
    ShutdownEvolves(e, e', r, fault);
    HandStaysShaped(e, e');
    forall id: Id | Handle(e', id) ensures e'.Has(id) && (id in e'.sess.registered || WriterDone(e', id)) {
      assert Handle(e, id);
      assert StreamEvolves(e.sess.streams[id], e'.sess.streams[id]);
    }
  }

  // Tasks

  /** A task that moved on is still due to retire what it was due to retire. */
  lemma DueMoves(e: Endpoint, e': Endpoint, k: nat, id: Id)
    requires Due(e, id) && e'.reader == e.reader && k < |e.hand| && |e'.hand| == |e.hand|
    requires forall j | 0 <= j < |e.hand| && j != k :: e'.hand[j] == e.hand[j]
    requires WillRetire(e.hand[k], id) ==> WillRetire(e'.hand[k], id)
    ensures Due(e', id)
  {
    if !WillRetire(e.reader, id) {
      var j :| 0 <= j < |e.hand| && WillRetire(e.hand[j], id);
      assert WillRetire(e'.hand[j], id);
    }
  }

  lemma EmitSlots(e: Endpoint, k: nat, lost: bool)
    requires SlotInv(e) && k < |e.hand| && (e.hand[k].Emit? || e.hand[k].Done?)
    ensures SlotInv(ActPerform(e, k, lost).0)
  {
    var e' := ActPerform(e, k, lost).0;
    assert HandShaped(e') by {
      forall j | 0 <= j < |e'.hand| ensures CallShaped(e'.hand[j]) && ForcedOk(e', e'.hand[j]) {
        assert CallShaped(e.hand[j]) && ForcedOk(e, e.hand[j]);
      }
    }
    forall id: Id | Handle(e', id) ensures e'.Has(id) && (id in e'.sess.registered || WriterDone(e', id)) {
      assert Handle(e, id);
    }
    if e.Live() {
      forall id | id in e'.sess.registered && e'.Has(id) && e'.sess.streams[id].Finished() ensures Due(e', id) {
        assert Due(e, id);
        DueMoves(e, e', k, id);
      }
    }
  }

  /** Taking a finished stream out of the table. */
  lemma RetireTaskSlots(e: Endpoint, k: nat, lost: bool)
    requires SlotInv(e) && k < |e.hand| && (e.hand[k].CheckRetire? || e.hand[k].Retire?)
    ensures SlotInv(ActPerform(e, k, lost).0)
  {
    var e' := ActPerform(e, k, lost).0;
    var id0 := e.hand[k].id;
    assert ForcedOk(e, e.hand[k]);
    assert HandShaped(e') by {
      forall j | 0 <= j < |e'.hand| ensures CallShaped(e'.hand[j]) && ForcedOk(e', e'.hand[j]) {
        assert CallShaped(e.hand[j]) && ForcedOk(e, e.hand[j]);
      }
    }
    forall id: Id | Handle(e', id) ensures e'.Has(id) && (id in e'.sess.registered || WriterDone(e', id)) {
      assert Handle(e, id);
    }
    if e.Live() {
      forall id | id in e'.sess.registered && e'.Has(id) && e'.sess.streams[id].Finished() ensures Due(e', id) {
        assert Due(e, id);
        assert id != id0;
        DueMoves(e, e', k, id);
      }
    }
  }

  lemma ReaderDueStays(e: Endpoint, e': Endpoint, id: Id)
    requires Due(e, id) && e'.hand == e.hand
    requires WillRetire(e.reader, id) ==> WillRetire(e'.reader, id)
    ensures Due(e', id)
  {
    if !WillRetire(e.reader, id) {
      var k :| 0 <= k < |e.hand| && WillRetire(e.hand[k], id);
      assert WillRetire(e'.hand[k], id);
    }
  }

  /** The reader's own progress, when it leaves every stream as it was. */
  lemma ReaderMoves(e: Endpoint, e': Endpoint)
    requires SlotInv(e) && e'.hand == e.hand && e'.held == e.held && ReaderShaped(e'.reader)
    requires e'.sess.streams == e.sess.streams && e'.sess.standing == e.sess.standing && e'.sess.cfg == e.sess.cfg
    requires e'.sess.registered <= e.sess.registered
    requires forall id: Id | Handle(e', id) ::
               Handle(e, id) && (id in e'.sess.registered || id !in e.sess.registered || WriterDone(e, id))
    requires forall id | id in e'.sess.registered && e'.Has(id) && e'.sess.streams[id].Finished() ::
               WillRetire(e.reader, id) ==> WillRetire(e'.reader, id)
    ensures HandShaped(e') && HandlesSound(e') && SlotsSound(e')
  {
    forall k | 0 <= k < |e'.hand| ensures CallShaped(e'.hand[k]) && ForcedOk(e', e'.hand[k]) {
      assert CallShaped(e.hand[k]) && ForcedOk(e, e.hand[k]);
    }
    if e.Live() {
      forall id | id in e'.sess.registered && e'.Has(id) && e'.sess.streams[id].Finished() ensures Due(e', id) {
        assert Due(e, id);
        ReaderDueStays(e, e', id);
      }
    }
  }

  lemma ReaderSlots(e: Endpoint, lost: bool)
    requires SlotInv(e) && EndSound(e)
    ensures SlotInv(ActReader(e, lost).0)
  {
    var e' := ActReader(e, lost).0;
    match e.reader
    case Done => ReaderMoves(e, e');
    case Emit(f, next) => ReaderMoves(e, e');
    case CheckRetire(id) => ReaderMoves(e, e');
    case Enqueue(id) => EnqueueSlots(e, lost, id);
  }

  lemma EnqueueSlots(e: Endpoint, lost: bool, id: Id)
    requires SlotInv(e) && EndSound(e) && e.reader == Enqueue(id)
    ensures SlotInv(ActReader(e, lost).0)
  {
    var e' := ActReader(e, lost).0;
    assert forall id' | id' in e.sess.opening :: e.sess.cfg.Mine(id');
    if |e.sess.acceptQ| < e.sess.cfg.maxStreams {
      assert e'.sess.acceptQ == e.sess.acceptQ + [id] && e'.reader == Done;
    } else {
      assert Enqueues(Done).None? && Enqueues(e'.reader).None?;
    }
    forall id': Id | Handle(e', id')
      ensures Handle(e, id') && (id' in e'.sess.registered || id' !in e.sess.registered || WriterDone(e, id'))
    {
    }
    ReaderMoves(e, e');
  }

  // Frames from the peer

  lemma AcceptSlots(p: Endpoint, p': Endpoint, id: Id, payload: seq<byte>)
    requires SlotInv(p) && EndSound(p) && p.reader.Done? && !p.Has(id) && !p.sess.cfg.Mine(id)
    requires p' == p.(sess := p.sess.(streams := p.sess.streams[id := NewStream(p.sess.cfg.window, payload)],
                                      registered := p.sess.registered + {id}),
                      reader := Emit(OkFrame(id), Enqueue(id)))
    ensures SlotInv(p')
  {
    forall k | 0 <= k < |p'.hand| ensures CallShaped(p'.hand[k]) && ForcedOk(p', p'.hand[k]) {
      assert CallShaped(p.hand[k]) && ForcedOk(p, p.hand[k]);
    }
    assert !Handle(p, id) && Enqueues(p'.reader) == Some(id);
    forall id': Id | Handle(p', id') ensures p'.Has(id') && (id' in p'.sess.registered || WriterDone(p', id')) {
      assert id' == id || Handle(p, id');
    }
    if p.Live() {
      forall id' | id' in p'.sess.registered && p'.Has(id') && p'.sess.streams[id'].Finished() ensures Due(p', id') {
        assert Due(p, id');
        ReaderDueStays(p, p', id');
      }
    }
  }

  /** A frame that changes at most one stream, and leaves a check behind if it finished it. */
  lemma StreamFrameSlots(p: Endpoint, p': Endpoint, id: Id)
    requires SlotInv(p) && Evolves(p, p') && p.reader.Done? && p'.hand == p.hand && p'.held == p.held
    requires p'.sess.registered == p.sess.registered && p'.sess.standing == p.sess.standing
    requires p'.sess.opening.Keys == p.sess.opening.Keys && p'.sess.acceptQ == p.sess.acceptQ
    requires p'.sess.streams.Keys == p.sess.streams.Keys
    requires forall id' | p.Has(id') && id' != id :: p'.sess.streams[id'] == p.sess.streams[id']
    requires p'.reader == Done || p'.reader == CheckRetire(id)
    requires p.Has(id) && p'.sess.streams[id].Finished() && !p.sess.streams[id].Finished() ==> p'.reader == CheckRetire(id)
    ensures SlotInv(p')
  {
    forall k | 0 <= k < |p'.hand| ensures CallShaped(p'.hand[k]) && ForcedOk(p', p'.hand[k]) {
      assert CallShaped(p.hand[k]);
      ForcedStays(p, p', p.hand[k]);
    }
    forall id': Id | Handle(p', id') ensures p'.Has(id') && (id' in p'.sess.registered || WriterDone(p', id')) {
      assert Handle(p, id');
      assert StreamEvolves(p.sess.streams[id'], p'.sess.streams[id']);
    }
    if p.Live() {
      forall id' | id' in p'.sess.registered && p'.Has(id') && p'.sess.streams[id'].Finished() ensures Due(p', id') {
        if p.sess.streams[id'].Finished() {
          assert Due(p, id');
          ReaderDueStays(p, p', id');
        }
      }
    }
  }

  /** What keeps one end's table in order, whatever its peer is like. */
  ghost predicate InOrder(e: Endpoint) {
    EndSound(e) && SlotInv(e)
  }

  /** The frames a peer may send: any the codec lets through, but no identifier is opened twice. */
  predicate Admissible(e: Endpoint, f: Frame) {
    |f.payload| <= MAX_FRAME_PAYLOAD && (f.typ == OPEN_STREAM ==> !e.Has(f.id))
  }

  /** An end that keeps its identifiers, handles and hand. */
  predicate SameHand(p: Endpoint, p': Endpoint) {
    p'.hand == p.hand && p'.held == p.held && p'.opens == p.opens
  }

  lemma EndsInOrder(p: Endpoint, p': Endpoint, r: Reason, fault: bool)
    requires InOrder(p) && CanReceive(p) && SameHand(p, p')
    requires p'.sess == Shutdown(p.sess, r, fault) && p'.reader == Done
    ensures InOrder(p')
  {
    ShutdownSound(p.sess, r, fault);
    ShutdownEvolves(p, p', r, fault);
    IdsStay(p, p');
    ShutdownSlots(p, p', r, fault);
  }

  /** A frame that changes one stream in the table, and leaves a check behind if it finished it. */
  lemma StreamInOrder(p: Endpoint, p': Endpoint, id: Id, st: StreamState)
    requires InOrder(p) && CanReceive(p) && SameHand(p, p') && p.Has(id)
    requires p'.sess == SetStream(p.sess, id, st) && Bounded(st, p.sess.cfg.window, p.sess.cfg.Threshold())
    requires StreamEvolves(p.sess.streams[id], st) && (p'.reader == Done || p'.reader == CheckRetire(id))
    requires st.Finished() && !p.sess.streams[id].Finished() ==> p'.reader == CheckRetire(id)
    ensures InOrder(p')
  {
    SetStreamSound(p.sess, id, st);
    SetStreamEvolves(p, p', id, st);
    IdsStay(p, p');
    StreamFrameSlots(p, p', id);
  }

  /** A frame that changes no stream and not the table. */
  lemma NothingInOrder(p: Endpoint, p': Endpoint)
    requires InOrder(p) && CanReceive(p) && SameHand(p, p')
    requires p'.sess == p.sess && (p'.reader == Done || (p'.reader.Emit? && p'.reader.next.Done?))
    ensures InOrder(p')
  {
    assert Enqueues(p'.reader).None?;
    ReaderMoves(p, p');
  }

  lemma AcceptInOrder(p: Endpoint, p': Endpoint, id: Id, payload: seq<byte>)
    requires InOrder(p) && CanReceive(p) && !p.Has(id) && !p.sess.cfg.Mine(id)
    requires |p.sess.registered| < p.sess.cfg.maxStreams
    requires p' == p.(sess := p.sess.(streams := p.sess.streams[id := NewStream(p.sess.cfg.window, payload)],
                                      registered := p.sess.registered + {id}),
                      reader := Emit(OkFrame(id), Enqueue(id)))
    ensures InOrder(p')
  {
    AddStreamSound(p.sess, id, payload);
    AcceptSlots(p, p', id, payload);
    assert IdsSound(p');
  }

  lemma OpenInOrder(p: Endpoint, f: Frame)
    requires InOrder(p) && CanReceive(p) && Admissible(p, f) && Fits(p, f) && f.typ == OPEN_STREAM
    ensures InOrder(Arrive(p, f))
  {
    var p' := Arrive(p, f);
    if p.sess.cfg.Mine(f.id) {
      EndsInOrder(p, p', MALFORMED, true);
    } else if |p.sess.registered| >= p.sess.cfg.maxStreams {
      NothingInOrder(p, p');
    } else {
      assert Receive(p.sess, f) ==
             (p.sess.(streams := p.sess.streams[f.id := NewStream(p.sess.cfg.window, f.payload)],
                      registered := p.sess.registered + {f.id}), Emit(OkFrame(f.id), Enqueue(f.id)));
      AcceptInOrder(p, p', f.id, f.payload);
    }
  }

  lemma AnswerInOrder(p: Endpoint, p': Endpoint, id: Id, r: Reason)
    requires InOrder(p) && CanReceive(p) && p' == p.(sess := CompleteOpen(p.sess, id, r))
    ensures InOrder(p') && CanReceive(p')
  {
    CompleteOpenSound(p.sess, id, r);
    SameStreamsSound(p, p');
    assert p'.sess.opening.Keys == p.sess.opening.Keys;
    ReaderMoves(p, p');
  }

  lemma DataInOrder(p: Endpoint, f: Frame)
    requires InOrder(p) && CanReceive(p) && Fits(p, f) && f.typ == STREAM_DATA
    ensures InOrder(Arrive(p, f))
  {
    var p' := Arrive(p, f);
    if f.id in p.sess.registered {
      var st := p.sess.streams[f.id];
      DeliverBounded(st, f.payload, p.sess.cfg.window, p.sess.cfg.Threshold());
      if Deliver(st, f.payload).Some? {
        StreamInOrder(p, p', f.id, Deliver(st, f.payload).value);
      } else {
        EndsInOrder(p, p', FLOW_CONTROL, true);
      }
    } else {
      NothingInOrder(p, p');
    }
  }

  lemma CreditInOrder(p: Endpoint, f: Frame)
    requires InOrder(p) && CanReceive(p) && Fits(p, f) && f.typ == STREAM_WINDOW
    ensures InOrder(Arrive(p, f))
  {
    var p' := Arrive(p, f);
    if DecodeWindow(f.payload).None? {
      EndsInOrder(p, p', MALFORMED, true);
    } else if f.id in p.sess.registered {
      StreamInOrder(p, p', f.id, GrantCredit(p.sess.streams[f.id], DecodeWindow(f.payload).value));
    } else {
      NothingInOrder(p, p');
    }
  }

  lemma CloseInOrder(p: Endpoint, f: Frame)
    requires InOrder(p) && CanReceive(p) && Fits(p, f) && f.typ == CLOSE_STREAM
    ensures InOrder(Arrive(p, f))
  {
    var r := CloseReason(f);
    var p1 := p.(sess := CompleteOpen(p.sess, f.id, r));
    AnswerInOrder(p, p1, f.id, r);
    if f.id in p1.sess.registered {
      RemoteCloseBounded(p1.sess.streams[f.id], r, p1.sess.cfg.window, p1.sess.cfg.Threshold());
      StreamInOrder(p1, Arrive(p, f), f.id, RemoteClose(p1.sess.streams[f.id], r));
    } else {
      NothingInOrder(p1, Arrive(p, f));
    }
  }

  /** Whatever arrives, short of a second open of one identifier, leaves the table in order. */
  lemma ArriveInOrder(p: Endpoint, f: Frame)
    requires InOrder(p) && CanReceive(p) && Admissible(p, f)
    ensures InOrder(Arrive(p, f))
  {
    var p' := Arrive(p, f);
    if !Fits(p, f) { EndsInOrder(p, p', LIMIT_FRAME, true); }
    else if f.typ == OPEN_STREAM { OpenInOrder(p, f); }
    else if f.typ == STREAM_OK { AnswerInOrder(p, p', f.id, REASON_OK); }
    else if f.typ == STREAM_DATA { DataInOrder(p, f); }
    else if f.typ == STREAM_WINDOW { CreditInOrder(p, f); }
    else if f.typ == CLOSE_STREAM { CloseInOrder(p, f); }
    else if f.typ == ERROR { EndsInOrder(p, p', f.payload, false); }
    else if f.typ == PING || f.typ == PONG { NothingInOrder(p, p'); }
    else { EndsInOrder(p, p', MALFORMED, true); }
  }

  lemma LocalSlots(p: Endpoint, op: Op)
    requires SlotInv(p) && EndSound(p) && Enabled(p, op)
    ensures SlotInv(Act(p, op).0)
  {
    match op
    case OpOpen(payload) => OpenSlots(p, payload);
    case OpPing => PingSlots(p);
    case OpEnd(_, r) => ShutdownSlots(p, Act(p, op).0, r, false);
    case OpPerform(k, lost) => HandSlots(p, k, lost);
    case OpReader(lost) => ReaderSlots(p, lost);
    case _ => if OnStream(op) { StreamOpSlots(p, op); } else { HandleOpSlots(p, op); }
  }

  lemma HandSlots(p: Endpoint, k: nat, lost: bool)
    requires SlotInv(p) && k < |p.hand|
    ensures SlotInv(ActPerform(p, k, lost).0)
  {
    assert CallShaped(p.hand[k]);
    if p.hand[k].Emit? || p.hand[k].Done? {
      EmitSlots(p, k, lost);
    } else {
      RetireTaskSlots(p, k, lost);
    }
  }

  lemma SlotsReady(p: Endpoint, op: Op)
    requires SlotInv(p) && Enabled(p, op)
    ensures Ready(p, op)
  {
    if op.OpPerform? {
      assert CallShaped(p.hand[op.k]);
    } else if op.OpReader? && p.reader.Enqueue? {
      assert Handle(p, p.reader.id);
    }
  }

  // Over every run of one end

  datatype Event = Does(op: Op) | Hears(f: Frame)

  predicate Possible(e: Endpoint, ev: Event) {
    match ev
    case Does(op) => Enabled(e, op)
    case Hears(f) => CanReceive(e) && Admissible(e, f)
  }

  function Happens(e: Endpoint, ev: Event): Endpoint
    requires Possible(e, ev)
  {
    match ev
    case Does(op) => Act(e, op).0
    case Hears(f) => Arrive(e, f)
  }

  /** The end after a sequence of its own steps and of frames from any peer, if each was possible when its
      turn came. */
  function Alone(e: Endpoint, events: seq<Event>): Option<Endpoint>
    decreases |events|
  {
    if events == [] then Some(e)
    else if !Possible(e, events[0]) then None
    else Alone(Happens(e, events[0]), events[1..])
  }

  lemma HappensInOrder(e: Endpoint, ev: Event)
    requires InOrder(e) && Possible(e, ev)
    ensures InOrder(Happens(e, ev)) && Happens(e, ev).sess.cfg == e.sess.cfg
  {
    match ev
    case Does(op) =>
      SlotsReady(e, op);
      ActEndSound(e, op);
      ActEvolves(e, op);
      LocalSlots(e, op);
    case Hears(f) =>
      ArriveInOrder(e, f);
      ArriveKeepsConfig(e.sess, f);
  }

  lemma ArriveKeepsConfig(s: SessionState, f: Frame)
    ensures Receive(s, f).0.cfg == s.cfg
  {
  }

  lemma {:induction false} AloneInOrder(e: Endpoint, events: seq<Event>)
    requires InOrder(e) && Alone(e, events).Some?
    ensures InOrder(Alone(e, events).value) && Alone(e, events).value.sess.cfg == e.sess.cfg
    decreases |events|
  {
    if events != [] {
      HappensInOrder(e, events[0]);
      AloneInOrder(Happens(e, events[0]), events[1..]);
    }
  }

  /** At most the agreed number of streams are in the table; identifiers awaiting an acknowledgement are in
      the table and of this end's parity; the next identifier is fresh while fewer than 2^31 streams were
      opened; a finished stream still in the table has somebody about to take it out, and when no call is
      under way there is none. */
  ghost predicate NoLeak(e: Endpoint, cfg: Config) {
    && |e.sess.registered| <= cfg.maxStreams
    && (forall id | id in e.sess.pending :: id in e.sess.registered && cfg.Mine(id))
    && (e.opens < MAX_OPENS ==> !e.Has(e.sess.nextID) && cfg.Mine(e.sess.nextID))
    && (forall id | id in e.sess.registered :: e.Has(id) && (e.sess.streams[id].Finished() ==> Due(e, id)))
    && (e.Quiet() ==> forall id | id in e.sess.registered :: !e.sess.streams[id].Finished())
  }

  lemma NoLeakAt(e: Endpoint)
    requires EndSound(e) && SlotsSound(e) && e.Live()
    ensures NoLeak(e, e.sess.cfg)
  {
    if e.opens < MAX_OPENS {
      NextIdFresh(e);
    }
    forall id | id in e.sess.registered ensures e.Quiet() ==> !Due(e, id) {
    }
  }

  lemma StartsInOrder(cfg: Config)
    requires cfg.Valid()
    ensures InOrder(NewEndpoint(cfg))
  {
  }

  /** Slots never leak or collide at a live session, for all limits the handshake admits, whatever its callers
      do and whatever frames its peer sends, so long as the peer opens no identifier twice. */
  lemma SlotsNeverLeak(cfg: Config, events: seq<Event>)
    requires cfg.Valid() && Alone(NewEndpoint(cfg), events).Some?
    requires Alone(NewEndpoint(cfg), events).value.Live()
    ensures NoLeak(Alone(NewEndpoint(cfg), events).value, cfg)
  {
    StartsInOrder(cfg);
    AloneInOrder(NewEndpoint(cfg), events);
    NoLeakAt(Alone(NewEndpoint(cfg), events).value);
  }

  // Over every run of two

  ghost predicate SysSlots(sys: Sys) {
    SysInv(sys) && SlotInv(sys.c) && SlotInv(sys.s)
  }

  lemma StepSlots(sys: Sys, step: Step)
    requires SysSlots(sys) && CanStep(sys, step)
    ensures SysSlots(Take(sys, step))
  {
    StepInv(sys, step);
    var p := step.p;
    SideInv(sys, p);
    match step
    case Local(_, op) => LocalSlots(sys.End(p), op);
    case Incoming(_) =>
      var f := sys.Wire(Other(p))[0];
      assert FrameOk(sys.End(Other(p)), sys.End(p), f);
      ArriveInOrder(sys.End(p), f);
  }

  lemma {:induction false} RunSlots(sys: Sys, steps: seq<Step>)
    requires SysSlots(sys) && Run(sys, steps).Some?
    ensures SysSlots(Run(sys, steps).value)
    decreases |steps|
  {
    if steps != [] {
      StepSlots(sys, steps[0]);
      RunSlots(Take(sys, steps[0]), steps[1..]);
    }
  }

  /** So a conforming peer, which numbers its streams apart, never makes slots leak. */
  lemma PairsNeverLeak(cfg: Config, steps: seq<Step>, p: Side)
    requires cfg.Valid() && Run(Start(cfg), steps).Some?
    requires Run(Start(cfg), steps).value.End(p).Live()
    ensures NoLeak(Run(Start(cfg), steps).value.End(p), cfg.(isClient := p.Client?))
  {
    StartInv(cfg);
    RunSlots(Start(cfg), steps);
    RunKeepsConfig(Start(cfg), steps);
    SideInv(Run(Start(cfg), steps).value, p);
    NoLeakAt(Run(Start(cfg), steps).value.End(p));
  }
}
