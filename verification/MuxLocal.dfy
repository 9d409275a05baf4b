/** One end's own operations keep the pair's invariant. */
module MuxLocal {
  import opened Bytes
  import opened Frames
  import opened StreamModel
  import opened SessionModel
  import opened MuxSystem
  import opened MuxFlow
  import opened MuxInvariant

  // One end stays sound

  lemma SetStreamSound(s: SessionState, id: Id, st: StreamState)
    requires SessSound(s) && id in s.streams && Bounded(st, s.cfg.window, s.cfg.Threshold())
    ensures SessSound(SetStream(s, id, st))
  {
    var s' := SetStream(s, id, st);
    assert s'.streams.Keys == s.streams.Keys;
  }

  lemma RetireSound(s: SessionState, id: Id)
    requires SessSound(s)
    ensures SessSound(RetireNow(s, id)) && SessSound(RetireIfDone(s, id))
  {
    SubsetSize(s.registered - {id}, s.registered);
  }

  lemma SubsetSize<T>(a: set<T>, b: set<T>)
    requires a <= b
    ensures |a| <= |b|
  {
    if a != {} {
      var x :| x in a;
      SubsetSize(a - {x}, b - {x});
    }
  }

  /** The next identifier has not been used, for as long as fewer than 2^31 streams were opened. */
  lemma NextIdFresh(e: Endpoint)
    requires EndSound(e) && e.opens < MAX_OPENS
    ensures !e.Has(e.sess.nextID) && e.sess.cfg.Mine(e.sess.nextID)
    ensures IndexOf(e.sess.cfg, e.sess.nextID) == e.opens
    ensures Wrap32(e.sess.nextID + 2) == NthId(e.sess.cfg, e.opens + 1)
  {
    NthIdIndex(e.sess.cfg, e.opens);
  }

  /** Adding a stream under a fresh identifier. */
  lemma AddStreamSound(s: SessionState, id: Id, payload: seq<byte>)
    requires SessSound(s) && id !in s.streams && s.standing.Live? && |s.registered| < s.cfg.maxStreams
    ensures SessSound(s.(streams := s.streams[id := NewStream(s.cfg.window, payload)],
                         registered := s.registered + {id}))
  {
    var s' := s.(streams := s.streams[id := NewStream(s.cfg.window, payload)], registered := s.registered + {id});
    assert TableSound(s') by {
      assert s'.streams.Keys == s.streams.Keys + {id};
      assert |s'.registered| == |s.registered| + 1;
    }
    assert StreamsSound(s') by {
      assert Bounded(NewStream(s.cfg.window, payload), s.cfg.window, s.cfg.Threshold());
    }
  }

  /** A stream numbered by p that q has is one that p made. */
  lemma OpenerHas(q: Endpoint, p: Endpoint, id: Id)
    requires StreamsKnown(q, p) && Matched(p, q) && q.Has(id) && p.sess.cfg.Mine(id)
    ensures p.Has(id)
  {
    assert StreamKnown(q, p, id);
  }

  lemma FreshAtPeer(p: Endpoint, q: Endpoint)
    requires EndSound(p) && p.opens < MAX_OPENS && StreamsKnown(q, p) && Matched(p, q)
    ensures !p.Has(p.sess.nextID) && p.sess.cfg.Mine(p.sess.nextID) && !q.Has(p.sess.nextID)
  {
    NextIdFresh(p);
    if q.Has(p.sess.nextID) {
      OpenerHas(q, p, p.sess.nextID);
    }
  }

  lemma OpenSessSound(s: SessionState)
    requires SessSound(s) && OpenBegin(s).OpenStarted? && s.nextID !in s.streams && s.cfg.Mine(s.nextID)
    ensures SessSound(OpenBegin(s).s)
  {
    AddStreamSound(s, s.nextID, []);
    var s1 := s.(streams := s.streams[s.nextID := NewStream(s.cfg.window, [])], registered := s.registered + {s.nextID});
    var s' := OpenBegin(s).s;
    assert s' == s1.(nextID := s'.nextID, pending := s'.pending, opening := s'.opening);
  }

  lemma OpenSound(e: Endpoint, payload: seq<byte>)
    requires EndSound(e) && OpenBegin(e.sess).OpenStarted? && e.opens < MAX_OPENS
    ensures EndSound(ActOpen(e, payload))
  {
    NextIdFresh(e);
    OpenSessSound(e.sess);
    OpenIdsSound(e, payload);
  }

  lemma OpenIdsSound(e: Endpoint, payload: seq<byte>)
    requires IdsSound(e) && OpenBegin(e.sess).OpenStarted? && e.opens < MAX_OPENS
    requires IndexOf(e.sess.cfg, e.sess.nextID) == e.opens
    requires Wrap32(e.sess.nextID + 2) == NthId(e.sess.cfg, e.opens + 1)
    ensures IdsSound(ActOpen(e, payload))
  {
    var e' := ActOpen(e, payload);
    forall id | e'.Has(id) && e'.sess.cfg.Mine(id) ensures IndexOf(e'.sess.cfg, id) < e'.opens {
      assert id == e.sess.nextID || e.Has(id);
    }
  }

  lemma ForgetOpeningSound(s: SessionState, id: Id)
    requires SessSound(s) && id !in s.pending
    ensures SessSound(s.(opening := s.opening - {id}))
  {
  }

  lemma OpenReturnSound(s: SessionState, id: Id)
    requires SessSound(s) && id in s.opening && s.opening[id].Some?
    ensures SessSound(s.(opening := s.opening - {id}))
    ensures SessSound(RetireNow(s.(opening := s.opening - {id}), id))
  {
    ForgetOpeningSound(s, id);
    RetireSound(s.(opening := s.opening - {id}), id);
  }

  lemma OpenCancelSound(s: SessionState, id: Id)
    requires SessSound(s)
    ensures SessSound(RetireNow(s.(opening := s.opening - {id}), id))
  {
    RetireSound(s, id);
    ForgetOpeningSound(RetireNow(s, id), id);
    assert RetireNow(s.(opening := s.opening - {id}), id) == RetireNow(s, id).(opening := s.opening - {id});
  }

  lemma ShutdownSound(s: SessionState, r: Reason, fault: bool)
    requires SessSound(s)
    ensures SessSound(Shutdown(s, r, fault))
  {
  }

  lemma EnqueueSound(s: SessionState, id: Id)
    requires SessSound(s) && id in s.streams && !s.cfg.Mine(id)
    ensures SessSound(s.(acceptQ := s.acceptQ + [id]))
  {
    var s' := s.(acceptQ := s.acceptQ + [id]);
    assert TableSound(s') && OpeningSound(s') && StreamsSound(s') && QueueSound(s');
  }

  lemma PerformSound(s: SessionState, t: Task, lost: bool)
    requires SessSound(s)
    requires t.Enqueue? ==> t.id in s.streams && !s.cfg.Mine(t.id)
    ensures SessSound(Perform(s, t, lost).0)
  {
    match t
    case CheckRetire(id) => RetireSound(s, id);
    case Retire(id) => RetireSound(s, id);
    case Enqueue(id) =>
      if |s.acceptQ| < s.cfg.maxStreams {
        EnqueueSound(s, id);
      } else {
        RetireSound(s, id);
      }
    case _ => assert Perform(s, t, lost).0 == s;
  }

  /** Only what a stream's end must have for its next operation to be sound. */
  ghost predicate Ready(e: Endpoint, op: Op)
    requires Enabled(e, op)
  {
    match op
    case OpPerform(k, _) => e.hand[k].Enqueue? ==> e.Has(e.hand[k].id) && !e.sess.cfg.Mine(e.hand[k].id)
    case OpReader(_) => e.reader.Enqueue? ==> e.Has(e.reader.id) && !e.sess.cfg.Mine(e.reader.id)
    case _ => true
  }

  lemma WriteBounded(s: StreamState, left: nat, maxFrame: uint32, window: uint32, threshold: uint32)
    requires Bounded(s, window, threshold)
    ensures Bounded(Write(s, left, maxFrame).1, window, threshold)
  {
  }

  lemma ActSessSound(e: Endpoint, op: Op)
    requires EndSound(e) && Enabled(e, op) && Ready(e, op)
    ensures SessSound(Act(e, op).0.sess)
  {
    var s := e.sess;
    match op
    case OpOpen(payload) =>
      NextIdFresh(e);
      OpenSessSound(s);
    case OpOpenReturn(id) => OpenReturnSound(s, id);
    case OpOpenCancel(id) => OpenCancelSound(s, id);
    case OpAccept =>
    case OpWrite(id, p) =>
      WriteBounded(s.streams[id], |p|, s.cfg.maxFrame, s.cfg.window, s.cfg.Threshold());
      SetStreamSound(s, id, Write(s.streams[id], |p|, s.cfg.maxFrame).1);
    case OpRead(id, max) =>
      ReadBounded(s.streams[id], max, s.cfg.window, s.cfg.Threshold());
      SetStreamSound(s, id, Read(s.streams[id], max, s.cfg.Threshold()).1);
    case OpClose(id, r) => SetStreamSound(s, id, Close(s.streams[id]));
    case OpReset(id, r) => SetStreamSound(s, id, Reset(s.streams[id], r));
    case OpPing =>
    case OpEnd(_, r) => ShutdownSound(s, r, false);
    case OpPerform(k, lost) => PerformSound(s, e.hand[k], lost);
    case OpReader(lost) => PerformSound(s, e.reader, lost);
  }

  // Growth

  /** An operation on one stream of an end. */
  predicate OnStream(op: Op) {
    op.OpWrite? || op.OpRead? || op.OpClose? || op.OpReset?
  }

  lemma SetStreamEvolves(e: Endpoint, e': Endpoint, id: Id, st: StreamState)
    requires id in e.sess.streams && StreamEvolves(e.sess.streams[id], st) && e'.sess == SetStream(e.sess, id, st)
    ensures Evolves(e, e') && e'.sess.streams.Keys == e.sess.streams.Keys
  {
  }

  lemma StreamOpEvolves(e: Endpoint, op: Op)
    requires Enabled(e, op) && OnStream(op)
    ensures Evolves(e, Act(e, op).0)
    ensures Act(e, op).0.sess.streams.Keys == e.sess.streams.Keys
  {
    var e' := Act(e, op).0;
    var st := e.sess.streams[op.id];
    match op
    case OpWrite(id, p) => SetStreamEvolves(e, e', id, Write(st, |p|, e.sess.cfg.maxFrame).1);
    case OpRead(id, max) =>
      if Read(st, max, e.sess.cfg.Threshold()).0.ReadGot? {
        SetStreamEvolves(e, e', id, Read(st, max, e.sess.cfg.Threshold()).1);
      }
    case OpClose(id, r) => SetStreamEvolves(e, e', id, Close(st));
    case OpReset(id, r) => SetStreamEvolves(e, e', id, Reset(st, r));
  }

  /** An operation that touches no stream. */
  lemma SessionOpEvolves(e: Endpoint, op: Op)
    requires Enabled(e, op)
    requires op.OpOpenReturn? || op.OpOpenCancel? || op.OpAccept? || op.OpPing? || op.OpPerform? || op.OpReader?
    ensures Evolves(e, Act(e, op).0)
    ensures Act(e, op).0.sess.streams.Keys == e.sess.streams.Keys
  {
    match op
    case OpPerform(k, lost) => PerformStreams(e.sess, e.hand[k], lost);
    case OpReader(lost) => PerformStreams(e.sess, e.reader, lost);
    case _ =>
  }

  lemma ShutdownEvolves(e: Endpoint, e': Endpoint, r: Reason, fault: bool)
    requires e'.sess == Shutdown(e.sess, r, fault)
    ensures Evolves(e, e') && e'.sess.streams.Keys == e.sess.streams.Keys
  {
  }

  lemma OpenEvolves(e: Endpoint, payload: seq<byte>)
    requires EndSound(e) && Enabled(e, OpOpen(payload))
    ensures Evolves(e, ActOpen(e, payload))
    ensures ActOpen(e, payload).sess.streams.Keys == e.sess.streams.Keys + {e.sess.nextID}
  {
    NextIdFresh(e);
  }

  /** Operations keep what is there, and only an open adds a stream. */
  lemma ActEvolves(e: Endpoint, op: Op)
    requires EndSound(e) && Enabled(e, op)
    ensures Evolves(e, Act(e, op).0)
    ensures Act(e, op).0.sess.streams.Keys == e.sess.streams.Keys + if op.OpOpen? then {e.sess.nextID} else {}
  {
    if op.OpOpen? {
      OpenEvolves(e, op.payload);
    } else if op.OpEnd? {
      ShutdownEvolves(e, Act(e, op).0, op.r, false);
    } else if OnStream(op) {
      StreamOpEvolves(e, op);
    } else {
      SessionOpEvolves(e, op);
    }
  }

  lemma ActIds(e: Endpoint, op: Op)
    requires Enabled(e, op) && !op.OpOpen?
    ensures var e' := Act(e, op).0;
            && e'.sess.nextID == e.sess.nextID && e'.opens == e.opens
            && (op.OpOpenReturn? || op.OpAccept? || e'.held == e.held)
            && e'.late == e.late
  {
  }

  lemma LateStays(e: Endpoint, e': Endpoint)
    requires LateSound(e) && Evolves(e, e') && e'.late == e.late
    ensures LateSound(e')
  {
    forall id: Id | e'.Late(id) > 0 ensures e'.Has(id) && e'.sess.streams[id].remoteClosed {
      assert e.Late(id) > 0;
      assert StreamEvolves(e.sess.streams[id], e'.sess.streams[id]);
    }
  }

  lemma IdsStay(e: Endpoint, e': Endpoint)
    requires IdsSound(e) && e'.sess.cfg == e.sess.cfg && e'.sess.streams.Keys == e.sess.streams.Keys
    requires e'.sess.nextID == e.sess.nextID && e'.opens == e.opens
    ensures IdsSound(e')
  {
  }

  /** A handle is only ever of a stream that is there. */
  lemma HeldStays(e: Endpoint, op: Op)
    requires EndSound(e) && Enabled(e, op) && !op.OpOpen?
    requires Act(e, op).0.sess.streams.Keys == e.sess.streams.Keys
    ensures Act(e, op).0.held <= Act(e, op).0.sess.streams.Keys
  {
    ActIds(e, op);
    if op.OpAccept? {
      assert e.sess.acceptQ[0] in e.sess.streams;
    }
  }

  lemma ActEndSound(e: Endpoint, op: Op)
    requires EndSound(e) && Enabled(e, op) && Ready(e, op)
    ensures EndSound(Act(e, op).0)
  {
    if op.OpOpen? {
      OpenSound(e, op.payload);
    } else {
      ActSessSound(e, op);
      ActEvolves(e, op);
      ActIds(e, op);
      IdsStay(e, Act(e, op).0);
      HeldStays(e, op);
    }
  }

  // Traffic

  lemma TrafficTakesUp(p: Endpoint, p': Endpoint, wire: seq<Frame>, q: Endpoint, t: Task)
    requires TrafficOk(p, wire, q) && Evolves(p, p') && TaskOk(p', q, t)
    requires p'.hand == p.hand + [t] && p'.reader == p.reader
    ensures TrafficOk(p', wire, q)
  {
    TrafficGrows(p, p'.(hand := p.hand), wire, q, q);
    forall k | 0 <= k < |p'.hand| ensures TaskOk(p', q, p'.hand[k]) {
      if k < |p.hand| {
        TaskOkGrows(p, p', q, q, p.hand[k]);
      }
    }
    TaskOkGrows(p, p', q, q, p.reader);
  }

  /** Performing a task puts on the wire only what it was entitled to send. */
  lemma PerformTraffic(p: Endpoint, q: Endpoint, t: Task, lost: bool)
    requires TaskOk(p, q, t) && Matched(p, q)
    requires forall id | p.Has(id) && !p.sess.cfg.Mine(id) :: q.Has(id)
    ensures var (_, t', out) := Perform(p.sess, t, lost);
            TaskOk(p, q, t') && forall i | 0 <= i < |out| :: FrameOk(p, q, out[i])
  {
  }

  /** Everything under way stays in order as its end moves on. */
  lemma TrafficMovesOn(p: Endpoint, p': Endpoint, wire: seq<Frame>, out: seq<Frame>, q: Endpoint)
    requires TrafficOk(p, wire, q) && Evolves(p, p') && |p'.hand| == |p.hand|
    requires forall i | 0 <= i < |out| :: FrameOk(p, q, out[i])
    requires forall k | 0 <= k < |p.hand| :: p'.hand[k] == p.hand[k] || TaskOk(p, q, p'.hand[k])
    requires p'.reader == p.reader || TaskOk(p, q, p'.reader)
    ensures TrafficOk(p', wire + out, q)
  {
    forall i | 0 <= i < |wire + out| ensures FrameOk(p', q, (wire + out)[i]) {
      FrameOkGrows(p, p', q, q, (wire + out)[i]);
    }
    forall k | 0 <= k < |p.hand| ensures TaskOk(p', q, p'.hand[k]) {
      TaskOkGrows(p, p', q, q, p'.hand[k]);
    }
    TaskOkGrows(p, p', q, q, p'.reader);
  }

  lemma PerformKeepsTraffic(p: Endpoint, wire: seq<Frame>, q: Endpoint, op: Op)
    requires TrafficOk(p, wire, q) && EndSound(p) && StreamsKnown(p, q) && Matched(p, q)
    requires Enabled(p, op) && (op.OpPerform? || op.OpReader?)
    ensures TrafficOk(Act(p, op).0, wire + Act(p, op).1, q)
  {
    SessionOpEvolves(p, op);
    assert forall id | p.Has(id) && !p.sess.cfg.Mine(id) :: StreamKnown(p, q, id);
    PerformTraffic(p, q, if op.OpPerform? then p.hand[op.k] else p.reader, op.lost);
    TrafficMovesOn(p, Act(p, op).0, wire, Act(p, op).1, q);
  }

  // What each call takes in hand

  lemma OpenKeepsTraffic(p: Endpoint, wire: seq<Frame>, q: Endpoint, payload: seq<byte>)
    requires TrafficOk(p, wire, q) && EndSound(p) && StreamsKnown(q, p) && Matched(p, q)
    requires Enabled(p, OpOpen(payload))
    ensures TrafficOk(ActOpen(p, payload), wire, q)
  {
    ActEvolves(p, OpOpen(payload));
    FreshAtPeer(p, q);
    var t := Emit(Frame(OPEN_STREAM, p.sess.nextID, payload), Done);
    assert FrameOk(ActOpen(p, payload), q, t.frame);
    TrafficTakesUp(p, ActOpen(p, payload), wire, q, t);
  }

  lemma WriteKeepsTraffic(p: Endpoint, wire: seq<Frame>, q: Endpoint, id: Id, b: seq<byte>)
    requires TrafficOk(p, wire, q) && EndSound(p) && StreamsKnown(p, q)
    requires Enabled(p, OpWrite(id, b))
    ensures TrafficOk(ActWrite(p, id, b), wire, q)
  {
    var p' := ActWrite(p, id, b);
    StreamOpEvolves(p, OpWrite(id, b));
    WriteRoundSendsSomething(p.sess.streams[id], |b|, p.sess.cfg.maxFrame);
    assert StreamKnown(p, q, id);
    var t := Emit(DataFrame(id, b[..Write(p.sess.streams[id], |b|, p.sess.cfg.maxFrame).0.n]), Done);
    assert FrameOk(p', q, t.frame);
    TrafficTakesUp(p, p', wire, q, t);
  }

  lemma CloseKeepsTraffic(p: Endpoint, wire: seq<Frame>, q: Endpoint, id: Id, r: Reason)
    requires TrafficOk(p, wire, q) && EndSound(p) && StreamsKnown(p, q)
    ensures Enabled(p, OpClose(id, r)) ==> TrafficOk(ActClose(p, id, r), wire, q)
    ensures Enabled(p, OpReset(id, r)) ==> TrafficOk(ActReset(p, id, r), wire, q)
  {
    var f := CloseFrame(id, r);
    if Enabled(p, OpClose(id, r)) {
      var p' := ActClose(p, id, r);
      StreamOpEvolves(p, OpClose(id, r));
      assert StreamKnown(p, q, id);
      assert FrameOk(p', q, f);
      TrafficTakesUp(p, p', wire, q, Emit(f, CheckRetire(id)));
    }
    if Enabled(p, OpReset(id, r)) {
      var p' := ActReset(p, id, r);
      StreamOpEvolves(p, OpReset(id, r));
      assert StreamKnown(p, q, id);
      assert FrameOk(p', q, f);
      TrafficTakesUp(p, p', wire, q, Emit(f, Retire(id)));
    }
  }

  lemma PingKeepsTraffic(p: Endpoint, wire: seq<Frame>, q: Endpoint)
    requires TrafficOk(p, wire, q) && EndSound(p) && Enabled(p, OpPing)
    ensures TrafficOk(ActPing(p), wire, q)
  {
    SessionOpEvolves(p, OpPing);
    TrafficTakesUp(p, ActPing(p), wire, q, Emit(Frame(PING, 0, []), Done));
  }

  lemma ReadKeepsTraffic(p: Endpoint, wire: seq<Frame>, q: Endpoint, id: Id, max: nat)
    requires TrafficOk(p, wire, q) && EndSound(p) && StreamsKnown(p, q) && Matched(p, q)
    requires Enabled(p, OpRead(id, max))
    ensures TrafficOk(ActRead(p, id, max), wire, q)
  {
    var op := OpRead(id, max);
    StreamOpEvolves(p, op);
    var p' := ActRead(p, id, max);
    var (r, st) := Read(p.sess.streams[id], max, p.sess.cfg.Threshold());
    if r.ReadGot? && r.credit > 0 {
      var t := Emit(WindowFrame(id, r.credit), Done);
      WindowRoundTrip(r.credit);
      assert StreamKnown(p, q, id);
      assert FrameOk(p', q, t.frame);
      TrafficTakesUp(p, p', wire, q, t);
    } else {
      assert p'.hand == p.hand;
      TrafficGrows(p, p', wire, q, q);
    }
  }

  lemma EndKeepsTraffic(p: Endpoint, wire: seq<Frame>, q: Endpoint, tell: bool, r: Reason)
    requires TrafficOk(p, wire, q) && Enabled(p, OpEnd(tell, r))
    ensures TrafficOk(Act(p, OpEnd(tell, r)).0, wire + Act(p, OpEnd(tell, r)).1, q)
  {
    var (p', out) := Act(p, OpEnd(tell, r));
    ShutdownEvolves(p, p', r, false);
    TrafficGrows(p, p', wire, q, q);
  }

  lemma LocalTraffic(p: Endpoint, wp: seq<Frame>, q: Endpoint, wq: seq<Frame>, op: Op)
    requires PairInv(p, wp, q, wq) && Enabled(p, op)
    ensures TrafficOk(Act(p, op).0, wp + Act(p, op).1, q)
  {
    assert wp + [] == wp;
    match op
    case OpOpen(payload) => OpenKeepsTraffic(p, wp, q, payload);
    case OpWrite(id, b) => WriteKeepsTraffic(p, wp, q, id, b);
    case OpClose(id, r) => CloseKeepsTraffic(p, wp, q, id, r);
    case OpReset(id, r) => CloseKeepsTraffic(p, wp, q, id, r);
    case OpPing => PingKeepsTraffic(p, wp, q);
    case OpRead(id, max) => ReadKeepsTraffic(p, wp, q, id, max);
    case OpEnd(tell, r) => EndKeepsTraffic(p, wp, q, tell, r);
    case OpPerform(_, _) => PerformKeepsTraffic(p, wp, q, op);
    case OpReader(_) => PerformKeepsTraffic(p, wp, q, op);
    case OpOpenReturn(_) => IdleTraffic(p, wp, q, op);
    case OpOpenCancel(_) => IdleTraffic(p, wp, q, op);
    case OpAccept => IdleTraffic(p, wp, q, op);
  }

  lemma IdleTraffic(p: Endpoint, wire: seq<Frame>, q: Endpoint, op: Op)
    requires TrafficOk(p, wire, q) && Enabled(p, op)
    requires op.OpOpenReturn? || op.OpOpenCancel? || op.OpAccept?
    ensures TrafficOk(Act(p, op).0, wire + Act(p, op).1, q)
  {
    SessionOpEvolves(p, op);
    TrafficGrows(p, Act(p, op).0, wire, q, q);
    assert wire + [] == wire;
  }

  /** What the peer has under way stays in order as this end acts. */
  lemma LocalPeerTraffic(p: Endpoint, wp: seq<Frame>, q: Endpoint, wq: seq<Frame>, op: Op)
    requires PairInv(p, wp, q, wq) && Enabled(p, op)
    ensures TrafficOk(q, wq, Act(p, op).0)
    ensures OpenedOnce(q, wq, Act(p, op).0)
    ensures StreamsKnown(q, Act(p, op).0)
  {
    var p' := Act(p, op).0;
    ActEvolves(p, op);
    forall id | p'.Has(id) && !p.Has(id) ensures InFlight(Openings, q, wq, id) == 0 {
      FreshAtPeer(p, q);
    }
    TrafficGrows(q, q, wq, p, p');
    PeerKnows(q, p, p');
  }

  lemma PeerKnows(q: Endpoint, p: Endpoint, p': Endpoint)
    requires StreamsKnown(q, p) && Evolves(p, p')
    ensures StreamsKnown(q, p')
  {
    forall id | q.Has(id) ensures StreamKnown(q, p', id) {
      assert StreamKnown(q, p, id);
    }
  }

  // What this end knows of the peer

  /** Nothing new is claimed about a stream. */
  ghost predicate ClaimsNoMore(p: Endpoint, p': Endpoint, id: Id)
    requires p.Has(id) && p'.Has(id)
  {
    var st, st' := p.sess.streams[id], p'.sess.streams[id];
    && (id in p'.held ==> id in p.held)
    && (id in p'.sess.opening && p'.sess.opening[id] == Some(REASON_OK) ==>
          (id in p.sess.opening && p.sess.opening[id] == Some(REASON_OK)) || st'.reset)
    && (st'.buf != [] ==> st.buf != [])
    && (st'.remoteClosed && !st'.reset ==> st.remoteClosed)
  }

  lemma StillKnown(p: Endpoint, p': Endpoint, q: Endpoint, id: Id)
    requires p.Has(id) && Evolves(p, p') && StreamKnown(p, q, id) && ClaimsNoMore(p, p', id)
    ensures StreamKnown(p', q, id)
  {
    assert StreamEvolves(p.sess.streams[id], p'.sess.streams[id]);
  }

  /** Operations that hand out no handle claim nothing new. */
  lemma ActClaimsNoMore(p: Endpoint, op: Op, id: Id)
    requires EndSound(p) && Enabled(p, op) && p.Has(id) && !op.OpOpenReturn? && !op.OpAccept? && !op.OpOpen?
    ensures Act(p, op).0.Has(id) && ClaimsNoMore(p, Act(p, op).0, id)
  {
    if OnStream(op) {
      StreamOpClaimsNoMore(p, op, id);
    } else if op.OpEnd? {
      EndClaimsNoMore(p, op, id);
    } else {
      IdleClaimsNoMore(p, op, id);
    }
  }

  lemma IdleClaimsNoMore(p: Endpoint, op: Op, id: Id)
    requires Enabled(p, op) && p.Has(id) && (op.OpOpenCancel? || op.OpPing? || op.OpPerform? || op.OpReader?)
    ensures Act(p, op).0.Has(id) && ClaimsNoMore(p, Act(p, op).0, id)
  {
    match op
    case OpPerform(k, lost) => PerformStreams(p.sess, p.hand[k], lost);
    case OpReader(lost) => PerformStreams(p.sess, p.reader, lost);
    case _ =>
  }

  lemma StreamOpClaimsNoMore(p: Endpoint, op: Op, id: Id)
    requires Enabled(p, op) && p.Has(id) && OnStream(op)
    ensures Act(p, op).0.Has(id) && ClaimsNoMore(p, Act(p, op).0, id)
  {
  }

  lemma EndClaimsNoMore(p: Endpoint, op: Op, id: Id)
    requires EndSound(p) && Enabled(p, op) && p.Has(id) && op.OpEnd?
    ensures Act(p, op).0.Has(id) && ClaimsNoMore(p, Act(p, op).0, id)
  {
    assert id in p.sess.pending ==> id in p.sess.registered;
  }

  lemma LocalKnows(p: Endpoint, wp: seq<Frame>, q: Endpoint, wq: seq<Frame>, op: Op)
    requires PairInv(p, wp, q, wq) && Enabled(p, op)
    ensures StreamsKnown(Act(p, op).0, q)
  {
    var p' := Act(p, op).0;
    ActEvolves(p, op);
    forall id | p'.Has(id) ensures StreamKnown(p', q, id) {
      if op.OpOpen? {
        OpenKnows(p, q, op.payload, id);
      } else {
        assert StreamKnown(p, q, id);
        if op.OpOpenReturn? || op.OpAccept? {
          HandleKnows(p, q, op, id);
        } else {
          ActClaimsNoMore(p, op, id);
          StillKnown(p, p', q, id);
        }
      }
    }
  }

  lemma OpenKnows(p: Endpoint, q: Endpoint, payload: seq<byte>, id: Id)
    requires EndSound(p) && StreamsKnown(p, q) && OpenBegin(p.sess).OpenStarted? && p.opens < MAX_OPENS
    requires ActOpen(p, payload).Has(id)
    ensures StreamKnown(ActOpen(p, payload), q, id)
  {
    NextIdFresh(p);
    if id != p.sess.nextID {
      assert StreamKnown(p, q, id);
    } else {
      assert id !in p.held;
    }
  }

  lemma HandleKnows(p: Endpoint, q: Endpoint, op: Op, id: Id)
    requires EndSound(p) && Enabled(p, op) && (op.OpOpenReturn? || op.OpAccept?) && p.Has(id) && StreamKnown(p, q, id)
    ensures Act(p, op).0.Has(id) && StreamKnown(Act(p, op).0, q, id)
  {
    if op.OpAccept? {
      assert !p.sess.cfg.Mine(p.sess.acceptQ[0]);
    }
  }

  // Each open is announced once

  lemma LocalOpenedOnce(p: Endpoint, wp: seq<Frame>, q: Endpoint, wq: seq<Frame>, op: Op)
    requires PairInv(p, wp, q, wq) && Enabled(p, op)
    ensures OpenedOnce(Act(p, op).0, wp + Act(p, op).1, q)
  {
    var (p', out) := Act(p, op);
    ActEvolves(p, op);
    forall id: Id ensures InFlight(Openings, p', wp + out, id) <= if p'.Has(id) && !q.Has(id) then 1 else 0 {
      LocalShares(p, wp, q, wq, op, id);
      if op.OpOpen? {
        FreshAtPeer(p, q);
      }
    }
  }

  lemma LocalShares(p: Endpoint, wp: seq<Frame>, q: Endpoint, wq: seq<Frame>, op: Op, id: Id)
    requires PairInv(p, wp, q, wq) && Enabled(p, op)
    ensures SharesKept(p, op, wp, id)
  {
    if op.OpOpen? {
      NextIdFresh(p);
    }
    if op.OpRead? {
      assert Total(q, wq, p, wp, op.id) <= p.sess.cfg.window;
    }
    ActShares(p, op, wp, id);
  }

  // Balance

  /** A frame that is lost carries nothing for a stream that is still in the table. */
  lemma LostOnlyWhenGone(p: Endpoint, wp: seq<Frame>, q: Endpoint, op: Op, kind: Kind, id: Id)
    requires TrafficOk(p, wp, q) && EndSound(p) && Enabled(p, op)
    requires kind.DataBytes? || kind.CreditUnits?
    requires p.Has(id) ==> id in p.sess.registered
    ensures LostAmount(kind, p, op, id) == 0
  {
    if (op.OpPerform? || op.OpReader?) && op.lost {
      var t := if op.OpPerform? then p.hand[op.k] else p.reader;
      if t.Emit? {
        assert FrameOk(p, q, t.frame);
      }
    }
  }

  lemma LocalBalanced(p: Endpoint, wp: seq<Frame>, q: Endpoint, wq: seq<Frame>, op: Op)
    requires PairInv(p, wp, q, wq) && Enabled(p, op)
    ensures Balanced(Act(p, op).0, wp + Act(p, op).1, q, wq)
  {
    var (p', out) := Act(p, op);
    ActEvolves(p, op);
    forall id: Id
      ensures Total(p', wp + out, q, wq, id) <= p.sess.cfg.window
      ensures Intact(p', q, id) ==> Total(p', wp + out, q, wq, id) == p.sess.cfg.window
    {
      LocalShares(p, wp, q, wq, op, id);
      if Intact(p', q, id) {
        LostOnlyWhenGone(p, wp, q, op, DataBytes, id);
      }
      assert Total(p, wp, q, wq, id) <= p.sess.cfg.window;
    }
  }

  lemma LocalPeerBalanced(p: Endpoint, wp: seq<Frame>, q: Endpoint, wq: seq<Frame>, op: Op)
    requires PairInv(p, wp, q, wq) && Enabled(p, op)
    ensures Balanced(q, wq, Act(p, op).0, wp + Act(p, op).1)
  {
    var (p', out) := Act(p, op);
    ActEvolves(p, op);
    forall id: Id
      ensures Total(q, wq, p', wp + out, id) <= p.sess.cfg.window
      ensures Intact(q, p', id) ==> Total(q, wq, p', wp + out, id) == p.sess.cfg.window
    {
      LocalShares(p, wp, q, wq, op, id);
      if Intact(q, p', id) {
        if p.Has(id) {
          assert StreamEvolves(p.sess.streams[id], p'.sess.streams[id]);
        }
        LostOnlyWhenGone(p, wp, q, op, CreditUnits, id);
        UnabortedKeepsUnread(p, op, id);
      }
      assert Total(q, wq, p, wp, id) <= p.sess.cfg.window;
    }
  }

  lemma UnabortedKeepsUnread(p: Endpoint, op: Op, id: Id)
    requires Enabled(p, op)
    requires Act(p, op).0.Has(id) ==> !Act(p, op).0.sess.streams[id].reset
    ensures Discarded(p, op, id) == 0
  {
  }

  lemma LocalLate(p: Endpoint, op: Op)
    requires EndSound(p) && LateSound(p) && Enabled(p, op)
    ensures LateSound(Act(p, op).0) && Act(p, op).0.sess.cfg == p.sess.cfg
  {
    ActEvolves(p, op);
    if !op.OpOpen? {
      ActIds(p, op);
    }
    LateStays(p, Act(p, op).0);
  }

  lemma LocalReady(p: Endpoint, wp: seq<Frame>, q: Endpoint, op: Op)
    requires TrafficOk(p, wp, q) && Enabled(p, op)
    ensures Ready(p, op)
  {
    if op.OpPerform? {
      assert TaskOk(p, q, p.hand[op.k]);
    }
  }

  /** Whatever one end does on its own, the pair's invariant holds afterwards. */
  lemma LocalStep(p: Endpoint, wp: seq<Frame>, q: Endpoint, wq: seq<Frame>, op: Op)
    requires PairInv(p, wp, q, wq) && Enabled(p, op)
    ensures PairInv(Act(p, op).0, wp + Act(p, op).1, q, wq)
  {
    LocalReady(p, wp, q, op);
    ActEndSound(p, op);
    LocalLate(p, op);
    LocalTraffic(p, wp, q, wq, op);
    LocalKnows(p, wp, q, wq, op);
    LocalOpenedOnce(p, wp, q, wq, op);
    LocalBalanced(p, wp, q, wq, op);
    LocalPeerTraffic(p, wp, q, wq, op);
    LocalPeerBalanced(p, wp, q, wq, op);
  }
}
