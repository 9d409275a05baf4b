/** A frame from a conforming peer faults the session only if it is larger than agreed, and keeps the
    pair's invariant. */
module MuxRemote {
  import opened Bytes
  import opened Frames
  import opened StreamModel
  import opened SessionModel
  import opened MuxSystem
  import opened MuxFlow
  import opened MuxInvariant
  import opened MuxLocal

  /** What an arriving frame does to the receiver, whichever it was: no fault but for its size, nothing
      lost, a sound end, and a reader's task that may be carried out. */
  ghost predicate Received(p: Endpoint, q: Endpoint, f: Frame) {
    var p' := Arrive(p, f);
    && EndSound(p')
    && Evolves(p, p')
    && TaskOk(p', q, p'.reader)
    && StreamsKnown(p', q)
    && (forall id | p'.Has(id) && !p.Has(id) :: f.typ == OPEN_STREAM && id == f.id)
    && (p'.sess.standing.Over? && p'.sess.standing.fault ==> |f.payload| > p.sess.cfg.maxFrame)
  }

  ghost predicate Arriving(p: Endpoint, wp: seq<Frame>, q: Endpoint, wq: seq<Frame>) {
    PairInv(p, wp, q, wq) && CanReceive(p) && wq != []
  }

  predicate Fits(p: Endpoint, f: Frame) {
    |f.payload| <= p.sess.cfg.maxFrame
  }

  lemma Oversized(p: Endpoint, f: Frame)
    requires !Fits(p, f) && |f.payload| <= MAX_FRAME_PAYLOAD && f.typ != STREAM_DATA
    ensures var p' := Arrive(p, f);
            p'.sess == Shutdown(p.sess, LIMIT_FRAME, true) && p'.reader == Done && p'.late == p.late && p'.hand == p.hand
  {
  }

  // Opens

  lemma ReceiveOpen(p: Endpoint, wp: seq<Frame>, q: Endpoint, wq: seq<Frame>)
    requires Arriving(p, wp, q, wq) && wq[0].typ == OPEN_STREAM && Fits(p, wq[0])
    ensures Received(p, q, wq[0])
  {
    var f := wq[0];
    assert FrameOk(q, p, f);
    if |p.sess.registered| < p.sess.cfg.maxStreams {
      AddStreamSound(p.sess, f.id, f.payload);
      OpenAccepted(p, q, f);
    } else {
      OpenRefused(p, q, f);
    }
  }

  lemma OpenRefused(p: Endpoint, q: Endpoint, f: Frame)
    requires EndSound(p) && StreamsKnown(p, q) && Matched(p, q) && FrameOk(q, p, f) && f.typ == OPEN_STREAM
    requires p.Live() && Fits(p, f) && |p.sess.registered| >= p.sess.cfg.maxStreams
    ensures Received(p, q, f)
  {
    var t := Emit(CloseFrame(f.id, LIMIT_STREAMS), Done);
    assert Receive(p.sess, f) == (p.sess, t);
    assert FrameOk(p, q, t.frame);
    Unmoved(p, q, f);
  }

  lemma OpenAccepted(p: Endpoint, q: Endpoint, f: Frame)
    requires EndSound(p) && StreamsKnown(p, q) && Matched(p, q) && FrameOk(q, p, f) && f.typ == OPEN_STREAM
    requires p.Live() && Fits(p, f) && |p.sess.registered| < p.sess.cfg.maxStreams
    requires SessSound(p.sess.(streams := p.sess.streams[f.id := NewStream(p.sess.cfg.window, f.payload)],
                               registered := p.sess.registered + {f.id}))
    ensures Received(p, q, f)
  {
    var p' := Arrive(p, f);
    assert p'.sess == p.sess.(streams := p.sess.streams[f.id := NewStream(p.sess.cfg.window, f.payload)],
                              registered := p.sess.registered + {f.id});
    assert p'.reader == Emit(OkFrame(f.id), Enqueue(f.id));
    assert IdsSound(p');
    assert f.id !in p.held && f.id !in p.sess.opening;
    forall id | p'.Has(id) ensures StreamKnown(p', q, id) {
      if id != f.id {
        assert StreamKnown(p, q, id);
      }
    }
  }

  // Acknowledgements

  lemma CompleteOpenSound(s: SessionState, id: Id, r: Reason)
    requires SessSound(s)
    ensures SessSound(CompleteOpen(s, id, r))
    ensures CompleteOpen(s, id, r).streams == s.streams && CompleteOpen(s, id, r).registered == s.registered
    ensures CompleteOpen(s, id, r).cfg == s.cfg && CompleteOpen(s, id, r).nextID == s.nextID
  {
  }

  lemma CompleteOpenKnows(p: Endpoint, p': Endpoint, q: Endpoint, id: Id, r: Reason)
    requires SessSound(p.sess) && StreamsKnown(p, q)
    requires p'.sess == CompleteOpen(p.sess, id, r) && p'.held == p.held
    requires r == REASON_OK ==> q.Has(id)
    ensures StreamsKnown(p', q)
  {
    CompleteOpenSound(p.sess, id, r);
    forall id' | p'.Has(id') ensures StreamKnown(p', q, id') {
      assert StreamKnown(p, q, id');
    }
  }

  lemma ReceiveOk(p: Endpoint, wp: seq<Frame>, q: Endpoint, wq: seq<Frame>)
    requires Arriving(p, wp, q, wq) && wq[0].typ == STREAM_OK && Fits(p, wq[0])
    ensures Received(p, q, wq[0])
  {
    var f := wq[0];
    assert FrameOk(q, p, f);
    CompleteOpenSound(p.sess, f.id, REASON_OK);
    var p' := Arrive(p, f);
    assert p'.sess == CompleteOpen(p.sess, f.id, REASON_OK) && p'.reader == Done;
    CompleteOpenKnows(p, p', q, f.id, REASON_OK);
    SameStreamsSound(p, p');
  }

  /** An end whose streams and table are as before. */
  lemma SameStreamsSound(p: Endpoint, p': Endpoint)
    requires EndSound(p) && SessSound(p'.sess)
    requires p'.sess.streams == p.sess.streams && p'.sess.cfg == p.sess.cfg && p'.sess.nextID == p.sess.nextID
    requires p'.sess.registered == p.sess.registered && p'.opens == p.opens && p'.held == p.held
    ensures EndSound(p') && Evolves(p, p')
  {
  }

  // Data

  /** What is on its way fits the receiver's window. */
  lemma DataFits(p: Endpoint, wp: seq<Frame>, q: Endpoint, wq: seq<Frame>)
    requires Arriving(p, wp, q, wq) && wq[0].typ == STREAM_DATA
    ensures var f := wq[0];
            p.Has(f.id) && q.Has(f.id) && |f.payload| <= p.sess.cfg.maxFrame
            && (p.sess.streams[f.id].Accepting() ==> |f.payload| <= p.sess.streams[f.id].recvWindow)
  {
    var f := wq[0];
    assert FrameOk(q, p, f);
    assert Total(q, wq, p, wp, f.id) <= p.sess.cfg.window;
    assert Amount(DataBytes, f, f.id) == |f.payload|;
    assert Bounded(p.sess.streams[f.id], p.sess.cfg.window, p.sess.cfg.Threshold());
  }

  /** A stream replaced by one that evolved from it. */
  lemma SetStreamReceived(p: Endpoint, p': Endpoint, q: Endpoint, id: Id, st: StreamState)
    requires EndSound(p) && StreamsKnown(p, q) && p.Has(id)
    requires p'.sess == SetStream(p.sess, id, st) && p'.opens == p.opens && p'.held == p.held
    requires StreamEvolves(p.sess.streams[id], st) && Bounded(st, p.sess.cfg.window, p.sess.cfg.Threshold())
    requires st.buf != [] ==> q.Has(id)
    requires st.remoteClosed && !st.reset ==> q.Has(id) && q.sess.streams[id].localClosed
    ensures EndSound(p') && Evolves(p, p') && StreamsKnown(p', q) && p'.sess.streams.Keys == p.sess.streams.Keys
  {
    SetStreamSound(p.sess, id, st);
    forall id' | p'.Has(id') ensures StreamKnown(p', q, id') {
      assert StreamKnown(p, q, id');
    }
  }

  lemma ReceiveData(p: Endpoint, wp: seq<Frame>, q: Endpoint, wq: seq<Frame>)
    requires Arriving(p, wp, q, wq) && wq[0].typ == STREAM_DATA
    ensures Received(p, q, wq[0])
  {
    DataFits(p, wp, q, wq);
    DataReceived(p, q, wq[0]);
  }

  lemma DataReceived(p: Endpoint, q: Endpoint, f: Frame)
    requires EndSound(p) && StreamsKnown(p, q) && f.typ == STREAM_DATA && p.Has(f.id) && q.Has(f.id)
    requires p.Live() && |f.payload| <= p.sess.cfg.maxFrame
    requires p.sess.streams[f.id].Accepting() ==> |f.payload| <= p.sess.streams[f.id].recvWindow
    ensures Received(p, q, f)
  {
    var p' := Arrive(p, f);
    if f.id in p.sess.registered {
      var st := p.sess.streams[f.id];
      DeliverBounded(st, f.payload, p.sess.cfg.window, p.sess.cfg.Threshold());
      var st' := StreamModel.Deliver(st, f.payload).value;
      assert p'.sess == SetStream(p.sess, f.id, st') && p'.reader == Done;
      assert StreamKnown(p, q, f.id);
      SetStreamReceived(p, p', q, f.id, st');
    } else {
      Unmoved(p, q, f);
    }
  }

  /** Frames that change nothing. */
  lemma Unmoved(p: Endpoint, q: Endpoint, f: Frame)
    requires EndSound(p) && p.Live() && StreamsKnown(p, q)
    requires Arrive(p, f).sess == p.sess && TaskOk(p, q, Arrive(p, f).reader)
    ensures Received(p, q, f)
  {
    var p' := Arrive(p, f);
    TaskOkGrows(p, p', q, q, p'.reader);
    forall id | p'.Has(id) ensures StreamKnown(p', q, id) {
      assert StreamKnown(p, q, id);
    }
  }

  // Credit

  /** Credit on its way never saturates the writer's window. */
  lemma CreditFits(p: Endpoint, wp: seq<Frame>, q: Endpoint, wq: seq<Frame>)
    requires Arriving(p, wp, q, wq) && wq[0].typ == STREAM_WINDOW
    ensures var f := wq[0];
            p.Has(f.id) && DecodeWindow(f.payload).Some?
            && Amount(CreditUnits, f, f.id) == DecodeWindow(f.payload).value
            && SendWindow(p, f.id) + Amount(CreditUnits, f, f.id) <= p.sess.cfg.window
  {
    var f := wq[0];
    assert FrameOk(q, p, f);
    assert Total(p, wp, q, wq, f.id) <= p.sess.cfg.window;
  }

  lemma ReceiveCredit(p: Endpoint, wp: seq<Frame>, q: Endpoint, wq: seq<Frame>)
    requires Arriving(p, wp, q, wq) && wq[0].typ == STREAM_WINDOW && Fits(p, wq[0])
    ensures Received(p, q, wq[0])
  {
    CreditFits(p, wp, q, wq);
    CreditReceived(p, q, wq[0]);
  }

  lemma CreditReceived(p: Endpoint, q: Endpoint, f: Frame)
    requires EndSound(p) && p.Live() && StreamsKnown(p, q) && f.typ == STREAM_WINDOW && p.Has(f.id)
    requires |f.payload| <= p.sess.cfg.maxFrame && DecodeWindow(f.payload).Some?
    ensures Received(p, q, f)
  {
    var p' := Arrive(p, f);
    if f.id in p.sess.registered {
      var st := GrantCredit(p.sess.streams[f.id], DecodeWindow(f.payload).value);
      assert p'.sess == SetStream(p.sess, f.id, st) && p'.reader == Done;
      assert StreamKnown(p, q, f.id);
      SetStreamReceived(p, p', q, f.id, st);
    } else {
      Unmoved(p, q, f);
    }
  }

  // Closes

  lemma RemoteCloseBounded(s: StreamState, r: Reason, window: uint32, threshold: uint32)
    requires Bounded(s, window, threshold)
    ensures Bounded(RemoteClose(s, r), window, threshold) && StreamEvolves(s, RemoteClose(s, r))
    ensures !RemoteClose(s, r).Accepting()
    ensures RemoteClose(s, r).buf != [] ==> s.buf != []
    ensures RemoteClose(s, r).remoteClosed && !RemoteClose(s, r).reset ==> s.remoteClosed || Orderly(r)
  {
  }

  lemma ReceiveCloseFrame(p: Endpoint, wp: seq<Frame>, q: Endpoint, wq: seq<Frame>)
    requires Arriving(p, wp, q, wq) && wq[0].typ == CLOSE_STREAM && Fits(p, wq[0])
    ensures Received(p, q, wq[0])
  {
    var f := wq[0];
    assert FrameOk(q, p, f);
    var r := CloseReason(f);
    OrderlyCloseIsTheWriters(p, q, f);
    var p1 := p.(sess := CompleteOpen(p.sess, f.id, r));
    CompleteOpenSound(p.sess, f.id, r);
    CompleteOpenKnows(p, p1, q, f.id, r);
    SameStreamsSound(p, p1);
    CloseReceived(p, p1, q, f);
  }

  /** The close itself, once the open it may be answering is settled. */
  lemma CloseReceived(p: Endpoint, p1: Endpoint, q: Endpoint, f: Frame)
    requires f.typ == CLOSE_STREAM && |f.payload| <= p.sess.cfg.maxFrame && p.Has(f.id) && p.Live()
    requires p1 == p.(sess := CompleteOpen(p.sess, f.id, CloseReason(f)))
    requires EndSound(p1) && StreamsKnown(p1, q) && Evolves(p, p1)
    requires p1.sess.streams == p.sess.streams && p1.sess.registered == p.sess.registered
    requires Orderly(CloseReason(f)) ==> q.Has(f.id) && q.sess.streams[f.id].localClosed
    ensures Received(p, q, f)
  {
    var p' := Arrive(p, f);
    if f.id in p.sess.registered {
      var st := RemoteClose(p.sess.streams[f.id], CloseReason(f));
      RemoteCloseBounded(p.sess.streams[f.id], CloseReason(f), p.sess.cfg.window, p.sess.cfg.Threshold());
      assert p'.sess == SetStream(p1.sess, f.id, st) && p'.reader == CheckRetire(f.id);
      assert StreamKnown(p1, q, f.id);
      SetStreamReceived(p1, p', q, f.id, st);
      EvolvesTwice(p, p1, p');
    } else {
      assert p'.sess == p1.sess && p'.reader == Done;
      forall id | p'.Has(id) ensures StreamKnown(p', q, id) {
        assert StreamKnown(p1, q, id);
      }
    }
  }

  lemma EvolvesTwice(a: Endpoint, b: Endpoint, c: Endpoint)
    requires Evolves(a, b) && Evolves(b, c)
    ensures Evolves(a, c)
  {
  }

  /** An orderly close comes from a writer that closed, never from a refusal. */
  lemma OrderlyCloseIsTheWriters(p: Endpoint, q: Endpoint, f: Frame)
    requires FrameOk(q, p, f) && f.typ == CLOSE_STREAM
    ensures p.Has(f.id)
    ensures Orderly(CloseReason(f)) ==> q.Has(f.id) && q.sess.streams[f.id].localClosed
  {
    assert |LIMIT_STREAMS| != |REASON_OK| && |LIMIT_STREAMS| != 0;
  }

  // The rest

  /** A frame that ends the session: an error from the peer, or one larger than agreed. */
  lemma EndReceived(p: Endpoint, q: Endpoint, f: Frame, r: Reason, fault: bool)
    requires EndSound(p) && StreamsKnown(p, q)
    requires Arrive(p, f).sess == Shutdown(p.sess, r, fault) && Arrive(p, f).reader == Done
    requires p.Live() && (fault ==> |f.payload| > p.sess.cfg.maxFrame)
    ensures Received(p, q, f)
  {
    var p' := Arrive(p, f);
    ShutdownSound(p.sess, r, fault);
    ShutdownEvolves(p, p', r, fault);
    forall id | p'.Has(id) ensures StreamKnown(p', q, id) {
      assert StreamKnown(p, q, id);
      assert id in p.sess.pending ==> id in p.sess.registered;
    }
  }

  lemma ReceivePing(p: Endpoint, wp: seq<Frame>, q: Endpoint, wq: seq<Frame>)
    requires Arriving(p, wp, q, wq) && (wq[0].typ == PING || wq[0].typ == PONG) && Fits(p, wq[0])
    ensures Received(p, q, wq[0])
  {
    var f := wq[0];
    assert FrameOk(q, p, f);
    assert Arrive(p, f).sess == p.sess;
    Unmoved(p, q, f);
  }

  lemma ReceiveAny(p: Endpoint, wp: seq<Frame>, q: Endpoint, wq: seq<Frame>)
    requires Arriving(p, wp, q, wq)
    ensures Received(p, q, wq[0])
  {
    var f := wq[0];
    assert FrameOk(q, p, f);
    if !Fits(p, f) {
      Oversized(p, f);
      EndReceived(p, q, f, LIMIT_FRAME, true);
    }
    else if f.typ == OPEN_STREAM { ReceiveOpen(p, wp, q, wq); }
    else if f.typ == STREAM_OK { ReceiveOk(p, wp, q, wq); }
    else if f.typ == STREAM_DATA { ReceiveData(p, wp, q, wq); }
    else if f.typ == STREAM_WINDOW { ReceiveCredit(p, wp, q, wq); }
    else if f.typ == CLOSE_STREAM { ReceiveCloseFrame(p, wp, q, wq); }
    else if f.typ == ERROR { EndReceived(p, q, f, f.payload, false); }
    else { ReceivePing(p, wp, q, wq); }
  }

  // Amounts

  /** The receiver's shares grow by at most what the frame carries, and by exactly that for a stream
      still in the table and, for data, not aborted. */
  ghost predicate SharesGrow(p: Endpoint, wp: seq<Frame>, f: Frame, id: Id) {
    var p' := Arrive(p, f);
    && WriterSide(p', wp, id) <= WriterSide(p, wp, id) + Amount(CreditUnits, f, id)
    && ReaderSide(p', wp, id) <= ReaderSide(p, wp, id) + Amount(DataBytes, f, id)
    && InFlight(Openings, p', wp, id) == InFlight(Openings, p, wp, id)
    && ((p'.Has(id) ==> id in p'.sess.registered) ==>
          WriterSide(p', wp, id) == WriterSide(p, wp, id) + Amount(CreditUnits, f, id))
    && (Open(p', id) ==>
          ReaderSide(p', wp, id) == ReaderSide(p, wp, id) + Amount(DataBytes, f, id))
  }

  /** Not made yet, or in the table and not aborted. */
  predicate Open(p: Endpoint, id: Id) {
    p.Has(id) ==> id in p.sess.registered && !p.sess.streams[id].reset
  }

  lemma OpenBefore(p: Endpoint, p': Endpoint, id: Id)
    requires Evolves(p, p') && Open(p', id)
    ensures Open(p, id)
  {
    if p.Has(id) {
      assert StreamEvolves(p.sess.streams[id], p'.sess.streams[id]);
    }
  }

  lemma DataShares(p: Endpoint, wp: seq<Frame>, f: Frame, id: Id)
    requires f.typ == STREAM_DATA && p.reader.Done? && p.Has(f.id) && Evolves(p, Arrive(p, f))
    requires |f.payload| <= p.sess.cfg.maxFrame
    requires p.sess.streams[f.id].Accepting() ==> |f.payload| <= p.sess.streams[f.id].recvWindow
    ensures SharesGrow(p, wp, f, id)
  {
    ArriveData(p, f, wp, id);
    if Open(Arrive(p, f), id) {
      OpenBefore(p, Arrive(p, f), id);
    }
  }

  lemma CreditShares(p: Endpoint, wp: seq<Frame>, f: Frame, id: Id)
    requires f.typ == STREAM_WINDOW && p.reader.Done? && p.Has(f.id) && Evolves(p, Arrive(p, f))
    requires |f.payload| <= p.sess.cfg.maxFrame && DecodeWindow(f.payload).Some?
    requires SendWindow(p, f.id) + Amount(CreditUnits, f, f.id) <= p.sess.cfg.window
    ensures SharesGrow(p, wp, f, id)
  {
    ArriveCredit(p, f, wp, id);
  }

  lemma CloseShares(p: Endpoint, wp: seq<Frame>, f: Frame, id: Id)
    requires f.typ == CLOSE_STREAM && |f.payload| <= p.sess.cfg.maxFrame && p.Has(f.id) && p.reader.Done?
    requires Evolves(p, Arrive(p, f))
    ensures SharesGrow(p, wp, f, id)
  {
    ArriveClose(p, f, wp, id);
    ReceiveClose(p.sess, f);
  }

  /** An end that shuts down on a frame takes nothing from it. */
  lemma OversizedShares(p: Endpoint, wp: seq<Frame>, f: Frame, id: Id)
    requires !Fits(p, f) && |f.payload| <= MAX_FRAME_PAYLOAD && f.typ != STREAM_DATA && p.reader.Done? && p.Live()
    requires f.typ == STREAM_WINDOW ==> p.Has(f.id)
    ensures SharesGrow(p, wp, f, id)
  {
    var p' := Arrive(p, f);
    Oversized(p, f);
    ShutdownUnmoving(p, p', LIMIT_FRAME, true, id);
    UnmovingShares(p, p', wp, id);
  }

  lemma ReceiveShares(p: Endpoint, wp: seq<Frame>, q: Endpoint, wq: seq<Frame>, id: Id)
    requires Arriving(p, wp, q, wq)
    ensures SharesGrow(p, wp, wq[0], id)
  {
    var f := wq[0];
    assert FrameOk(q, p, f);
    ReceiveAny(p, wp, q, wq);
    if !Fits(p, f) {
      OversizedShares(p, wp, f, id);
    } else if f.typ == STREAM_DATA {
      DataFits(p, wp, q, wq);
      DataShares(p, wp, f, id);
    } else if f.typ == STREAM_WINDOW {
      CreditFits(p, wp, q, wq);
      CreditShares(p, wp, f, id);
    } else if f.typ == CLOSE_STREAM {
      CloseShares(p, wp, f, id);
    } else {
      ArriveQuietly(p, f, wp, id);
    }
  }

  // The whole step

  lemma ReceiveBalanced(p: Endpoint, wp: seq<Frame>, q: Endpoint, wq: seq<Frame>)
    requires Arriving(p, wp, q, wq)
    ensures Balanced(Arrive(p, wq[0]), wp, q, wq[1..])
    ensures Balanced(q, wq[1..], Arrive(p, wq[0]), wp)
  {
    var p' := Arrive(p, wq[0]);
    ReceiveAny(p, wp, q, wq);
    forall id: Id
      ensures Total(p', wp, q, wq[1..], id) <= p.sess.cfg.window
      ensures Intact(p', q, id) ==> Total(p', wp, q, wq[1..], id) == p.sess.cfg.window
    {
      ReceiveShares(p, wp, q, wq, id);
      assert Total(p, wp, q, wq, id) <= p.sess.cfg.window;
    }
    forall id: Id
      ensures Total(q, wq[1..], p', wp, id) <= p.sess.cfg.window
      ensures Intact(q, p', id) ==> Total(q, wq[1..], p', wp, id) == p.sess.cfg.window
    {
      ReceiveShares(p, wp, q, wq, id);
      assert Total(q, wq, p, wp, id) <= p.sess.cfg.window;
    }
  }

  lemma ReceiveTraffic(p: Endpoint, wp: seq<Frame>, q: Endpoint, wq: seq<Frame>)
    requires Arriving(p, wp, q, wq)
    ensures TrafficOk(Arrive(p, wq[0]), wp, q) && TrafficOk(q, wq[1..], Arrive(p, wq[0]))
    ensures OpenedOnce(Arrive(p, wq[0]), wp, q) && OpenedOnce(q, wq[1..], Arrive(p, wq[0]))
    ensures StreamsKnown(q, Arrive(p, wq[0]))
  {
    var f, p' := wq[0], Arrive(p, wq[0]);
    ReceiveAny(p, wp, q, wq);
    TrafficGrows(p, p'.(reader := p.reader), wp, q, q);
    forall k | 0 <= k < |p'.hand| ensures TaskOk(p', q, p'.hand[k]) {
      TaskOkGrows(p, p', q, q, p.hand[k]);
    }
    forall i | 0 <= i < |wp| ensures FrameOk(p', q, wp[i]) {
      FrameOkGrows(p, p', q, q, wp[i]);
    }
    forall id: Id ensures InFlight(Openings, p', wp, id) <= if p'.Has(id) && !q.Has(id) then 1 else 0 {
      ReceiveShares(p, wp, q, wq, id);
    }
    ReceiveRest(p, p', q, wq);
    PeerKnows(q, p, p');
  }

  /** What the peer still has under way, once the first frame is taken. */
  lemma ReceiveRest(p: Endpoint, p': Endpoint, q: Endpoint, wq: seq<Frame>)
    requires wq != [] && TrafficOk(q, wq, p) && OpenedOnce(q, wq, p) && Evolves(p, p')
    requires forall id | p'.Has(id) && !p.Has(id) :: wq[0].typ == OPEN_STREAM && id == wq[0].id
    ensures TrafficOk(q, wq[1..], p') && OpenedOnce(q, wq[1..], p')
  {
    forall id | p'.Has(id) && !p.Has(id) ensures InFlight(Openings, q, wq[1..], id) == 0 {
      assert Amount(Openings, wq[0], id) == 1;
      assert InFlight(Openings, q, wq, id) <= 1;
    }
    TrafficGrows(q, q, wq[1..], p, p');
    forall id: Id ensures InFlight(Openings, q, wq[1..], id) <= if q.Has(id) && !p'.Has(id) then 1 else 0 {
      assert InFlight(Openings, q, wq, id) <= if q.Has(id) && !p.Has(id) then 1 else 0;
    }
  }

  lemma LateArrives(p: Endpoint, f: Frame)
    requires LateSound(p) && Evolves(p, Arrive(p, f))
    ensures LateSound(Arrive(p, f))
  {
    var p' := Arrive(p, f);
    forall id: Id | p'.Late(id) > 0 ensures p'.Has(id) && p'.sess.streams[id].remoteClosed {
      assert p.Late(id) > 0 || (DropsLate(p, f) && id == f.id);
      assert StreamEvolves(p.sess.streams[id], p'.sess.streams[id]);
    }
  }

  /** Taking in whatever the peer sent next, the pair's invariant holds afterwards. */
  lemma ArriveStep(p: Endpoint, wp: seq<Frame>, q: Endpoint, wq: seq<Frame>)
    requires Arriving(p, wp, q, wq)
    ensures PairInv(Arrive(p, wq[0]), wp, q, wq[1..])
  {
    ReceiveAny(p, wp, q, wq);
    LateArrives(p, wq[0]);
    ReceiveBalanced(p, wp, q, wq);
    ReceiveTraffic(p, wp, q, wq);
  }
}
