/** Bytes are conserved: what was written is read, unread, on its way, or came after the close. */
module MuxBytes {
  import opened Bytes
  import opened Frames
  import opened StreamModel
  import opened SessionModel
  import opened MuxSystem
  import opened MuxFlow
  import opened MuxInvariant
  import opened MuxLocal
  import opened MuxRemote
  import opened MuxTheorems

  /** What an end has taken in on a stream, read or not. */
  function Taken(e: Endpoint, id: Id): seq<byte> {
    e.Got(id) + if e.Has(id) then e.sess.streams[id].buf else []
  }

  ghost predicate ByteBalance(p: Endpoint, wp: seq<Frame>, q: Endpoint) {
    forall id: Id | Intact(p, q, id) ::
      |p.Written(id)| == |Taken(q, id)| + InFlight(DataBytes, p, wp, id) + q.Late(id)
  }

  /** How many bytes one operation adds to a stream's written history. */
  function Adds(e: Endpoint, op: Op, id: Id): nat
    requires Enabled(e, op)
  {
    if op.OpWrite? && op.id == id then Write(e.sess.streams[id], |op.p|, e.sess.cfg.maxFrame).0.n else 0
  }

  /** Only Write adds to the written history, and it takes exactly that much from the window. */
  lemma ActWritten(e: Endpoint, op: Op, id: Id)
    requires Enabled(e, op) && e.sess.cfg.maxFrame > 0 && (op.OpOpen? ==> !e.Has(e.sess.nextID))
    ensures var e' := Act(e, op).0;
            && |e'.Written(id)| == |e.Written(id)| + Adds(e, op, id)
            && SendWindow(e', id) + Adds(e, op, id) == SendWindow(e, id)
            && (Adds(e, op, id) == 0 ==> e'.Written(id) == e.Written(id))
  {
    match op
    case OpWrite(id0, b) => WriteRoundSendsSomething(e.sess.streams[id0], |b|, e.sess.cfg.maxFrame);
    case OpPerform(k, lost) => PerformStreams(e.sess, e.hand[k], lost);
    case OpReader(lost) => PerformStreams(e.sess, e.reader, lost);
    case OpRead(id0, max) => ReadKeepsSendWindow(e.sess.streams[id0], max, e.sess.cfg.Threshold());
    case OpEnd(_, r) => ShutdownShares(e.sess, r, false, id);
    case _ =>
  }

  /** An end's own operations keep what it has taken in, but for what an abort discards. */
  lemma ActTaken(e: Endpoint, op: Op, id: Id)
    requires Enabled(e, op) && (op.OpOpen? ==> !e.Has(e.sess.nextID))
    ensures var e' := Act(e, op).0;
            && (if op.OpReset? && op.id == id then Taken(e', id) == e.Got(id) else Taken(e', id) == Taken(e, id))
            && e'.Late(id) == e.Late(id)
  {
    if OnStream(op) {
      StreamOpTakes(e, op, id);
    } else {
      SessionOpTakes(e, op, id);
    }
  }

  lemma StreamOpTakes(e: Endpoint, op: Op, id: Id)
    requires Enabled(e, op) && OnStream(op)
    ensures var e' := Act(e, op).0;
            && (if op.OpReset? && op.id == id then Taken(e', id) == e.Got(id) else Taken(e', id) == Taken(e, id))
            && e'.Late(id) == e.Late(id)
  {
    if op.OpRead? {
      ReadTakes(e, op.id, op.max, id);
    }
  }

  lemma SessionOpTakes(e: Endpoint, op: Op, id: Id)
    requires Enabled(e, op) && !OnStream(op) && (op.OpOpen? ==> !e.Has(e.sess.nextID))
    ensures var e' := Act(e, op).0; Taken(e', id) == Taken(e, id) && e'.Late(id) == e.Late(id)
  {
    match op
    case OpPerform(k, lost) => PerformStreams(e.sess, e.hand[k], lost);
    case OpReader(lost) => PerformStreams(e.sess, e.reader, lost);
    case OpEnd(_, r) => ShutdownShares(e.sess, r, false, id);
    case OpOpen(_) => assert Taken(e, e.sess.nextID) == e.Got(e.sess.nextID);
    case _ =>
  }

  lemma ReadTakes(e: Endpoint, id: Id, max: nat, id': Id)
    requires id in e.sess.streams && max > 0
    ensures Taken(ActRead(e, id, max), id') == Taken(e, id')
  {
    var buf := e.sess.streams[id].buf;
    var e' := ActRead(e, id, max);
    if id == id' && buf != [] {
      var n := Min(max, |buf|);
      assert e'.sess.streams[id].buf == buf[n..] && e'.Got(id) == e.Got(id) + buf[..n];
      assert e.Got(id) + buf[..n] + buf[n..] == e.Got(id) + buf;
    }
  }

  lemma LocalBytes(p: Endpoint, wp: seq<Frame>, q: Endpoint, wq: seq<Frame>, op: Op)
    requires PairInv(p, wp, q, wq) && Enabled(p, op) && ByteBalance(p, wp, q) && ByteBalance(q, wq, p)
    ensures ByteBalance(Act(p, op).0, wp + Act(p, op).1, q)
    ensures ByteBalance(q, wq, Act(p, op).0)
  {
    var (p', out) := Act(p, op);
    ActEvolves(p, op);
    if op.OpOpen? {
      NextIdFresh(p);
    }
    forall id: Id | Intact(p', q, id)
      ensures |p'.Written(id)| == |Taken(q, id)| + InFlight(DataBytes, p', wp + out, id) + q.Late(id)
    {
      LocalShares(p, wp, q, wq, op, id);
      LostOnlyWhenGone(p, wp, q, op, DataBytes, id);
      ActWritten(p, op, id);
      assert Intact(p, q, id);
    }
    forall id: Id | Intact(q, p', id)
      ensures |q.Written(id)| == |Taken(p', id)| + InFlight(DataBytes, q, wq, id) + p'.Late(id)
    {
      ActTaken(p, op, id);
      StaysIntact(q, p, op, id);
    }
  }

  lemma StaysIntact(q: Endpoint, p: Endpoint, op: Op, id: Id)
    requires EndSound(p) && Enabled(p, op) && Intact(q, Act(p, op).0, id)
    ensures Intact(q, p, id) && !(op.OpReset? && op.id == id)
  {
    ActEvolves(p, op);
    if p.Has(id) {
      assert StreamEvolves(p.sess.streams[id], Act(p, op).0.sess.streams[id]);
    }
  }

  // What a frame does to a stream it carries no bytes and no close for

  /** The same bytes taken, and no close that was not there. */
  predicate Untouched(p: Endpoint, p': Endpoint, id: Id) {
    && Taken(p', id) == Taken(p, id)
    && (p'.Has(id) && p'.sess.streams[id].remoteClosed && !p'.sess.streams[id].reset ==>
          p.Has(id) && p.sess.streams[id].remoteClosed && !p.sess.streams[id].reset)
  }

  lemma ShutdownUntouched(p: Endpoint, p': Endpoint, r: Reason, fault: bool, id: Id)
    requires p'.sess == Shutdown(p.sess, r, fault) && p'.got == p.got
    ensures Untouched(p, p', id)
  {
  }

  lemma OpenUntouched(p: Endpoint, f: Frame, id: Id)
    requires f.typ == OPEN_STREAM && |f.payload| <= p.sess.cfg.maxFrame && !p.Has(f.id)
    ensures Untouched(p, Arrive(p, f), id)
  {
    if HandleOpen(p.sess, f.id, f.payload).Fault? {
      ShutdownUntouched(p, Arrive(p, f), MALFORMED, true, id);
    }
  }

  lemma DataUntouched(p: Endpoint, f: Frame, id: Id)
    requires f.typ == STREAM_DATA && |f.payload| <= p.sess.cfg.maxFrame && f.id != id
    ensures Untouched(p, Arrive(p, f), id)
  {
    if HandleData(p.sess, f.id, f.payload).Fault? {
      ShutdownUntouched(p, Arrive(p, f), FLOW_CONTROL, true, id);
    }
  }

  lemma CreditUntouched(p: Endpoint, f: Frame, id: Id)
    requires f.typ == STREAM_WINDOW && |f.payload| <= p.sess.cfg.maxFrame
    ensures Untouched(p, Arrive(p, f), id)
  {
    if HandleWindow(p.sess, f.id, f.payload).Fault? {
      ShutdownUntouched(p, Arrive(p, f), MALFORMED, true, id);
    }
  }

  lemma CloseUntouched(p: Endpoint, f: Frame, id: Id)
    requires f.typ == CLOSE_STREAM && |f.payload| <= p.sess.cfg.maxFrame && f.id != id
    ensures Untouched(p, Arrive(p, f), id)
  {
    ReceiveClose(p.sess, f);
  }

  lemma OkUntouched(p: Endpoint, f: Frame, id: Id)
    requires f.typ == STREAM_OK && |f.payload| <= p.sess.cfg.maxFrame
    ensures Untouched(p, Arrive(p, f), id)
  {
    assert Arrive(p, f).sess.streams == p.sess.streams;
  }

  lemma RestUntouched(p: Endpoint, f: Frame, id: Id)
    requires f.typ !in {OPEN_STREAM, STREAM_OK, STREAM_DATA, STREAM_WINDOW, CLOSE_STREAM}
    requires |f.payload| <= p.sess.cfg.maxFrame
    ensures Untouched(p, Arrive(p, f), id)
  {
    var p' := Arrive(p, f);
    if f.typ == ERROR {
      ShutdownUntouched(p, p', f.payload, false, id);
    } else if f.typ == PING || f.typ == PONG {
      assert p'.sess == p.sess;
    } else {
      ShutdownUntouched(p, p', MALFORMED, true, id);
    }
  }

  lemma OtherStream(p: Endpoint, f: Frame, id: Id)
    requires Fits(p, f) || (f.typ != STREAM_DATA && |f.payload| <= MAX_FRAME_PAYLOAD)
    requires f.typ == OPEN_STREAM ==> !p.Has(f.id)
    requires f.id == id && Fits(p, f) ==> f.typ != STREAM_DATA && f.typ != CLOSE_STREAM
    ensures Untouched(p, Arrive(p, f), id)
  {
    if !Fits(p, f) {
      Oversized(p, f);
      ShutdownUntouched(p, Arrive(p, f), LIMIT_FRAME, true, id);
    } else if f.typ == OPEN_STREAM {
      OpenUntouched(p, f, id);
    } else if f.typ == STREAM_OK {
      OkUntouched(p, f, id);
    } else if f.typ == STREAM_DATA {
      DataUntouched(p, f, id);
    } else if f.typ == STREAM_WINDOW {
      CreditUntouched(p, f, id);
    } else if f.typ == CLOSE_STREAM {
      CloseUntouched(p, f, id);
    } else {
      RestUntouched(p, f, id);
    }
  }

  /** A data frame moves its bytes from flight into the stream, or into what came late. */
  lemma ArriveBytes(p: Endpoint, f: Frame, id: Id)
    requires p.reader.Done? && |f.payload| <= MAX_FRAME_PAYLOAD
    requires f.typ == OPEN_STREAM ==> !p.Has(f.id)
    requires f.typ == STREAM_DATA ==> p.Has(f.id) && Fits(p, f)
    requires f.typ == STREAM_DATA && p.sess.streams[f.id].Accepting() ==>
               |f.payload| <= p.sess.streams[f.id].recvWindow
    requires Evolves(p, Arrive(p, f)) && Open(Arrive(p, f), id)
    ensures var p' := Arrive(p, f);
            |Taken(p', id)| + p'.Late(id) == |Taken(p, id)| + p.Late(id) + Amount(DataBytes, f, id)
  {
    if f.typ == STREAM_DATA {
      OpenBefore(p, Arrive(p, f), id);
      ArriveDataBytes(p, f, id);
    } else if f.typ == CLOSE_STREAM && f.id == id && Fits(p, f) {
      ArriveCloseBytes(p, f);
    } else {
      OtherStream(p, f, id);
    }
  }

  lemma ArriveCloseBytes(p: Endpoint, f: Frame)
    requires f.typ == CLOSE_STREAM && |f.payload| <= p.sess.cfg.maxFrame && Open(Arrive(p, f), f.id)
    ensures var p' := Arrive(p, f); Taken(p', f.id) == Taken(p, f.id) && p'.late == p.late
  {
    ReceiveClose(p.sess, f);
  }

  lemma ArriveDataBytes(p: Endpoint, f: Frame, id: Id)
    requires f.typ == STREAM_DATA && |f.payload| <= p.sess.cfg.maxFrame && p.Has(f.id) && Open(p, id)
    requires p.sess.streams[f.id].Accepting() ==> |f.payload| <= p.sess.streams[f.id].recvWindow
    ensures var p' := Arrive(p, f);
            |Taken(p', id)| + p'.Late(id) == |Taken(p, id)| + p.Late(id) + Amount(DataBytes, f, id)
  {
  }

  lemma RemoteBytes(p: Endpoint, wp: seq<Frame>, q: Endpoint, wq: seq<Frame>)
    requires Arriving(p, wp, q, wq) && ByteBalance(p, wp, q) && ByteBalance(q, wq, p)
    ensures ByteBalance(Arrive(p, wq[0]), wp, q)
    ensures ByteBalance(q, wq[1..], Arrive(p, wq[0]))
  {
    var f, p' := wq[0], Arrive(p, wq[0]);
    ReceiveAny(p, wp, q, wq);
    assert FrameOk(q, p, f);
    forall id: Id | Intact(p', q, id)
      ensures |p'.Written(id)| == |Taken(q, id)| + InFlight(DataBytes, p', wp, id) + q.Late(id)
    {
      assert Intact(p, q, id);
      ArriveReaderCarriesNothing(p, f, id);
    }
    forall id: Id | Intact(q, p', id)
      ensures |q.Written(id)| == |Taken(p', id)| + InFlight(DataBytes, q, wq[1..], id) + p'.Late(id)
    {
      OpenBefore(p, p', id);
      if f.typ == STREAM_DATA {
        DataFits(p, wp, q, wq);
      }
      ArriveBytes(p, f, id);
      assert Intact(q, p, id);
    }
  }

  lemma ArriveReaderCarriesNothing(p: Endpoint, f: Frame, id: Id)
    ensures InTask(DataBytes, Arrive(p, f).reader, id) == 0
  {
  }

  // Over every run

  ghost predicate SysBytes(sys: Sys) {
    SysInv(sys) && ByteBalance(sys.c, sys.cs, sys.s) && ByteBalance(sys.s, sys.sc, sys.c)
  }

  lemma StepBytes(sys: Sys, step: Step)
    requires SysBytes(sys) && CanStep(sys, step)
    ensures SysBytes(Take(sys, step))
  {
    StepInv(sys, step);
    var p := step.p;
    var q := Other(p);
    SideInv(sys, p);
    match step
    case Local(_, op) => LocalBytes(sys.End(p), sys.Wire(p), sys.End(q), sys.Wire(q), op);
    case Incoming(_) => RemoteBytes(sys.End(p), sys.Wire(p), sys.End(q), sys.Wire(q));
  }

  lemma {:induction false} RunBytes(sys: Sys, steps: seq<Step>)
    requires SysBytes(sys) && Run(sys, steps).Some?
    ensures SysBytes(Run(sys, steps).value)
    decreases |steps|
  {
    if steps != [] {
      StepBytes(sys, steps[0]);
      RunBytes(Take(sys, steps[0]), steps[1..]);
    }
  }

  /** In every reachable state, for either direction of a stream in both tables that its reader has not
      aborted, every byte written is accounted for exactly once: returned by Read, buffered, in flight, or
      dropped because it came after the close. */
  lemma BytesConserved(cfg: Config, steps: seq<Step>, p: Side, id: Id)
    requires cfg.Valid() && Run(Start(cfg), steps).Some?
    requires var sys := Run(Start(cfg), steps).value;
             id in sys.End(p).sess.registered && id in sys.End(Other(p)).sess.registered
             && sys.End(Other(p)).Has(id) && !sys.End(Other(p)).sess.streams[id].reset
    ensures var sys := Run(Start(cfg), steps).value;
            var w, r := sys.End(p), sys.End(Other(p));
            |w.Written(id)| ==
            |r.Got(id)| + |r.sess.streams[id].buf| + InFlight(DataBytes, w, sys.Wire(p), id) + r.Late(id)
  {
    StartInv(cfg);
    RunBytes(Start(cfg), steps);
    var sys := Run(Start(cfg), steps).value;
    assert Intact(sys.End(p), sys.End(Other(p)), id);
    assert ByteBalance(sys.End(p), sys.Wire(p), sys.End(Other(p)));
  }
}
