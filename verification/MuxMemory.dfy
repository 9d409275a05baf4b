/** How much one session can be made to hold, whatever the peer sends. */
module MuxMemory {
  import opened Bytes
  import opened Frames
  import opened StreamModel
  import opened SessionModel

  /** What can happen to a session: any frame from the peer, and the locked regions of this end's own
      calls. `Drops` is any retirement, by whoever still remembers the identifier. */
  datatype Event =
    | Arrives(f: Frame)
    | Opens
    | Reads(id: Id, max: nat)
    | Writes(id: Id, left: nat)
    | Closes(id: Id)
    | Resets(id: Id, r: Reason)
    | Drops(id: Id)
    | Ends(r: Reason)

  /** What the codec lets through. */
  predicate Possible(ev: Event) {
    ev.Arrives? ==> |ev.f.payload| <= MAX_FRAME_PAYLOAD
  }

  predicate Tabled(s: SessionState, id: Id) {
    id in s.registered && id in s.streams
  }

  function React(s: SessionState, ev: Event): SessionState {
    match ev
    case Arrives(f) => if s.standing.Live? then Receive(s, f).0 else s
    case Opens => var o := OpenBegin(s); if o.OpenStarted? then o.s else s
    case Reads(id, max) =>
      if Tabled(s, id) then SetStream(s, id, Read(s.streams[id], max, s.cfg.Threshold()).1) else s
    case Writes(id, left) =>
      if Tabled(s, id) then SetStream(s, id, Write(s.streams[id], left, s.cfg.maxFrame).1) else s
    case Closes(id) => if Tabled(s, id) then SetStream(s, id, Close(s.streams[id])) else s
    case Resets(id, r) => if Tabled(s, id) then SetStream(s, id, Reset(s.streams[id], r)) else s
    case Drops(id) => RetireNow(s, id)
    case Ends(r) => Shutdown(s, r, false)
  }

  function After(s: SessionState, events: seq<Event>): SessionState
    decreases |events|
  {
    if events == [] then s else After(React(s, events[0]), events[1..])
  }

  ghost predicate Contained(s: SessionState) {
    && s.registered <= s.streams.Keys
    && |s.registered| <= s.cfg.maxStreams
    && forall id | id in s.registered :: Bounded(s.streams[id], s.cfg.window, s.cfg.Threshold())
  }

  lemma Shrinks(s: SessionState, keep: set<Id>)
    requires keep <= s.registered
    ensures |keep| <= |s.registered|
  {
    assert s.registered == keep + (s.registered - keep);
  }

  lemma AddedContained(s: SessionState, id: Id, payload: seq<byte>)
    requires Contained(s) && id !in s.registered && |s.registered| < s.cfg.maxStreams
    ensures Contained(s.(streams := s.streams[id := NewStream(s.cfg.window, payload)],
                         registered := s.registered + {id}))
  {
  }

  lemma CompleteContained(s: SessionState, id: Id, r: Reason)
    requires Contained(s)
    ensures Contained(CompleteOpen(s, id, r)) && CompleteOpen(s, id, r).cfg == s.cfg
  {
  }

  lemma ShutdownContained(s: SessionState, r: Reason, fault: bool)
    requires Contained(s)
    ensures Contained(Shutdown(s, r, fault)) && Shutdown(s, r, fault).cfg == s.cfg
  {
  }

  /** A stream in the table changes, within its bounds. */
  lemma ChangedContained(s: SessionState, id: Id, st: StreamState)
    requires Contained(s) && Tabled(s, id) && Bounded(st, s.cfg.window, s.cfg.Threshold())
    ensures Contained(SetStream(s, id, st))
  {
  }

  lemma DataContained(s: SessionState, id: Id, b: seq<byte>)
    requires Contained(s) && |b| <= MAX_FRAME_PAYLOAD && HandleData(s, id, b).Next?
    ensures Contained(HandleData(s, id, b).s) && HandleData(s, id, b).s.cfg == s.cfg
  {
    if Tabled(s, id) {
      DeliverBounded(s.streams[id], b, s.cfg.window, s.cfg.Threshold());
      ChangedContained(s, id, Deliver(s.streams[id], b).value);
    }
  }

  lemma WindowContained(s: SessionState, id: Id, payload: seq<byte>)
    requires Contained(s) && HandleWindow(s, id, payload).Next?
    ensures Contained(HandleWindow(s, id, payload).s) && HandleWindow(s, id, payload).s.cfg == s.cfg
  {
    if Tabled(s, id) {
      ChangedContained(s, id, GrantCredit(s.streams[id], DecodeWindow(payload).value));
    }
  }

  lemma CloseContained(s: SessionState, id: Id, payload: seq<byte>)
    requires Contained(s)
    ensures Contained(HandleClose(s, id, payload).s) && HandleClose(s, id, payload).s.cfg == s.cfg
  {
    var r := if payload == [] then REASON_OK else payload;
    var s1 := CompleteOpen(s, id, r);
    CompleteContained(s, id, r);
    if Tabled(s1, id) {
      ChangedContained(s1, id, RemoteClose(s1.streams[id], r));
    }
  }

  lemma DispatchContained(s: SessionState, f: Frame)
    requires Contained(s) && |f.payload| <= MAX_FRAME_PAYLOAD && Dispatch(s, f).Next?
    ensures Contained(Dispatch(s, f).s) && Dispatch(s, f).s.cfg == s.cfg
  {
    if f.typ == OPEN_STREAM {
      if |s.registered| < s.cfg.maxStreams {
        AddedContained(s, f.id, f.payload);
      }
    } else if f.typ == STREAM_OK {
      CompleteContained(s, f.id, REASON_OK);
    } else if f.typ == STREAM_DATA {
      DataContained(s, f.id, f.payload);
    } else if f.typ == STREAM_WINDOW {
      WindowContained(s, f.id, f.payload);
    } else if f.typ == CLOSE_STREAM {
      CloseContained(s, f.id, f.payload);
    }
  }

  lemma ReceiveContained(s: SessionState, f: Frame)
    requires Contained(s) && |f.payload| <= MAX_FRAME_PAYLOAD
    ensures Contained(Receive(s, f).0) && Receive(s, f).0.cfg == s.cfg
  {
    if Wrap32(|f.payload|) > s.cfg.maxFrame {
      ShutdownContained(s, LIMIT_FRAME, true);
    } else {
      match Dispatch(s, f) {
        case Fault(r) => ShutdownContained(s, r, true);
        case PeerEnded(r) => ShutdownContained(s, r, false);
        case Next(_, _) => DispatchContained(s, f);
      }
    }
  }

  lemma CallContained(s: SessionState, ev: Event)
    requires Contained(s) && (ev.Reads? || ev.Writes? || ev.Closes? || ev.Resets?) && Tabled(s, ev.id)
    ensures Contained(React(s, ev)) && React(s, ev).cfg == s.cfg
  {
    var st := s.streams[ev.id];
    match ev {
      case Reads(id, max) =>
        ReadBounded(st, max, s.cfg.window, s.cfg.Threshold());
        ChangedContained(s, id, Read(st, max, s.cfg.Threshold()).1);
      case Writes(id, left) => ChangedContained(s, id, Write(st, left, s.cfg.maxFrame).1);
      case Closes(id) => ChangedContained(s, id, Close(st));
      case Resets(id, r) => ChangedContained(s, id, Reset(st, r));
    }
  }

  lemma OpensContained(s: SessionState)
    requires Contained(s)
    ensures Contained(React(s, Opens)) && React(s, Opens).cfg == s.cfg
  {
    if OpenBegin(s).OpenStarted? && s.nextID !in s.registered {
      AddedContained(s, s.nextID, []);
    }
  }

  lemma ReactContained(s: SessionState, ev: Event)
    requires Contained(s) && Possible(ev)
    ensures Contained(React(s, ev)) && React(s, ev).cfg == s.cfg
  {
    match ev {
      case Arrives(f) => ReceiveContained(s, f);
      case Opens => OpensContained(s);
      case Drops(id) => Shrinks(s, s.registered - {id});
      case Ends(r) => ShutdownContained(s, r, false);
      case _ =>
        if Tabled(s, ev.id) {
          CallContained(s, ev);
        }
    }
  }

  lemma {:induction false} AfterContained(s: SessionState, events: seq<Event>)
    requires Contained(s) && forall i | 0 <= i < |events| :: Possible(events[i])
    ensures Contained(After(s, events)) && After(s, events).cfg == s.cfg
    decreases |events|
  {
    if events != [] {
      ReactContained(s, events[0]);
      AfterContained(React(s, events[0]), events[1..]);
    }
  }

  /** The bytes buffered by a set of streams. */
  ghost function Buffered(streams: map<Id, StreamState>, ids: set<Id>): nat
    requires ids <= streams.Keys
  {
    if ids == {} then 0
    else
      var id :| id in ids;
      |streams[id].buf| + Buffered(streams, ids - {id})
  }

  lemma {:induction false} BufferedBound(streams: map<Id, StreamState>, ids: set<Id>, window: nat)
    requires ids <= streams.Keys
    requires forall id | id in ids :: |streams[id].buf| <= window
    ensures Buffered(streams, ids) <= |ids| * window
  {
    if ids != {} {
      var id :| id in ids && Buffered(streams, ids) == |streams[id].buf| + Buffered(streams, ids - {id});
      BufferedBound(streams, ids - {id}, window);
      assert |ids| * window == (|ids| - 1) * window + window;
    }
  }

  lemma ProductGrows(n: nat, m: nat, w: nat)
    requires n <= m
    ensures n * w <= m * w
  {
    assert m * w - n * w == (m - n) * w;
  }

  /** Against every sequence of frames the codec lets through, interleaved with any calls at this end:
      the table never exceeds the stream limit, every stream in it keeps its unread bytes and its receive
      window within the initial window (exactly, until it is aborted), and all of them together buffer at
      most the product. */
  lemma MemoryBounded(cfg: Config, events: seq<Event>)
    requires forall i | 0 <= i < |events| :: Possible(events[i])
    ensures var s := After(NewSession(cfg), events);
            && |s.registered| <= cfg.maxStreams
            && (forall id | id in s.registered ::
                  && id in s.streams
                  && |s.streams[id].buf| + s.streams[id].recvWindow <= cfg.window
                  && (!s.streams[id].reset ==> |s.streams[id].buf| + s.streams[id].recvWindow == cfg.window))
            && s.registered <= s.streams.Keys
            && Buffered(s.streams, s.registered) <= cfg.maxStreams * cfg.window
  {
    var s := After(NewSession(cfg), events);
    AfterContained(NewSession(cfg), events);
    BufferedBound(s.streams, s.registered, cfg.window);
    ProductGrows(|s.registered|, cfg.maxStreams, cfg.window);
  }

  /** With a window of at most 2^31, the additions Read makes to the receive counters never pass 2^32,
      in any of those states and for any number of bytes it can find. */
  lemma ReceiveCountersNeverWrap(cfg: Config, events: seq<Event>, id: Id, n: nat)
    requires cfg.window <= 0x8000_0000
    requires forall i | 0 <= i < |events| :: Possible(events[i])
    requires var s := After(NewSession(cfg), events); Tabled(s, id) && n <= |s.streams[id].buf|
    ensures var st := After(NewSession(cfg), events).streams[id];
            st.recvWindow + n < TWO_32 && st.pendingCredit + n < TWO_32
  {
    AfterContained(NewSession(cfg), events);
    CreditNeverWraps(cfg.window, cfg.Threshold());
  }
}
