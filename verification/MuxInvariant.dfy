/** What every run of two conforming sessions keeps. */
module MuxInvariant {
  import opened Bytes
  import opened Frames
  import opened StreamModel
  import opened SessionModel
  import opened MuxSystem
  import opened MuxFlow

  // Stream identifiers

  /** The identifier of the k-th stream an end opens, wrapping as uint32 does. */
  function NthId(cfg: Config, k: nat): Id {
    Wrap32(cfg.FirstId() + 2 * k)
  }

  /** Which open an identifier of this end's parity belongs to. */
  function IndexOf(cfg: Config, id: Id): nat {
    if cfg.isClient then id / 2 else Wrap32(id - 2) / 2
  }

  lemma NthIdIndex(cfg: Config, k: nat)
    requires k < MAX_OPENS
    ensures cfg.Mine(NthId(cfg, k)) && IndexOf(cfg, NthId(cfg, k)) == k
  {
  }

  /** Two opens of one session share an identifier exactly when a multiple of 2^31 apart. */
  lemma IdsCollide(cfg: Config, j: nat, k: nat)
    requires j <= k
    ensures NthId(cfg, j) == NthId(cfg, k) <==> (k - j) % MAX_OPENS == 0
  {
    var d := k - j;
    assert NthId(cfg, j) == NthId(cfg, k) <==> (2 * d) % TWO_32 == 0;
  }

  // One end

  ghost predicate TableSound(s: SessionState) {
    && s.cfg.Valid()
    && s.registered <= s.streams.Keys
    && |s.registered| <= s.cfg.maxStreams
    && (s.standing.Over? ==> s.registered == {})
  }

  ghost predicate OpeningSound(s: SessionState) {
    && (forall id | id in s.pending :: id in s.registered && id in s.opening && s.opening[id].None?)
    && (forall id | id in s.opening :: id in s.streams && s.cfg.Mine(id))
  }

  ghost predicate QueueSound(s: SessionState) {
    forall i | 0 <= i < |s.acceptQ| :: s.acceptQ[i] in s.streams && !s.cfg.Mine(s.acceptQ[i])
  }

  ghost predicate StreamsSound(s: SessionState) {
    forall id | id in s.streams :: Bounded(s.streams[id], s.cfg.window, s.cfg.Threshold())
  }

  ghost predicate SessSound(s: SessionState) {
    TableSound(s) && OpeningSound(s) && QueueSound(s) && StreamsSound(s)
  }

  ghost predicate IdsSound(e: Endpoint) {
    && e.opens <= MAX_OPENS
    && e.sess.nextID == NthId(e.sess.cfg, e.opens)
    && (forall id | e.Has(id) && e.sess.cfg.Mine(id) :: IndexOf(e.sess.cfg, id) < e.opens)
  }

  /** Bytes are only dropped late once the peer has closed. */
  ghost predicate LateSound(e: Endpoint) {
    forall id: Id | e.Late(id) > 0 :: e.Has(id) && e.sess.streams[id].remoteClosed
  }

  ghost predicate EndSound(e: Endpoint) {
    SessSound(e.sess) && IdsSound(e) && e.held <= e.sess.streams.Keys
  }

  // What is on its way from p to q

  /** A frame that p has sent, or is about to send, to q. Data fits the agreed frame size; the rest need
      only fit the codec. */
  ghost predicate FrameOk(p: Endpoint, q: Endpoint, f: Frame) {
    && |f.payload| <= (if f.typ == STREAM_DATA then p.sess.cfg.maxFrame else MAX_FRAME_PAYLOAD)
    && (f.typ in {PING, PONG, ERROR}
        || (f.typ == OPEN_STREAM && p.sess.cfg.Mine(f.id) && p.Has(f.id) && !q.Has(f.id))
        || (f.typ == STREAM_OK && p.Has(f.id) && q.Has(f.id))
        || (f.typ == STREAM_DATA && p.Has(f.id) && q.Has(f.id))
        || (f.typ == STREAM_WINDOW && p.Has(f.id) && q.Has(f.id) && DecodeWindow(f.payload).Some?)
        || (f.typ == CLOSE_STREAM && q.Has(f.id) && CloseOk(p, f)))
  }

  /** A close says that p's side of the stream is closed, or refuses an open. */
  ghost predicate CloseOk(p: Endpoint, f: Frame) {
    || (p.Has(f.id) && p.sess.streams[f.id].localClosed)
    || (f.payload == LIMIT_STREAMS && !p.sess.cfg.Mine(f.id))
  }

  ghost predicate TaskOk(p: Endpoint, q: Endpoint, t: Task) {
    match t
    case Emit(f, next) => FrameOk(p, q, f) && TaskOk(p, q, next)
    case Enqueue(id) => p.Has(id) && !p.sess.cfg.Mine(id)
    case _ => true
  }

  ghost predicate TrafficOk(p: Endpoint, wire: seq<Frame>, q: Endpoint) {
    && (forall i | 0 <= i < |wire| :: FrameOk(p, q, wire[i]))
    && (forall k | 0 <= k < |p.hand| :: TaskOk(p, q, p.hand[k]))
    && TaskOk(p, q, p.reader)
  }

  /** What p's view of a stream implies about q. */
  ghost predicate StreamKnown(p: Endpoint, q: Endpoint, id: Id)
    requires p.Has(id)
  {
    var st := p.sess.streams[id];
    && (!p.sess.cfg.Mine(id) ==> q.Has(id))
    && (id in p.held ==> q.Has(id) || st.reset)
    && (id in p.sess.opening && p.sess.opening[id] == Some(REASON_OK) ==> q.Has(id) || st.reset)
    && (st.buf != [] ==> q.Has(id))
    && (st.remoteClosed && !st.reset ==> q.Has(id) && q.sess.streams[id].localClosed)
  }

  ghost predicate StreamsKnown(p: Endpoint, q: Endpoint) {
    forall id | p.Has(id) :: StreamKnown(p, q, id)
  }

  /** Each open is announced once. */
  ghost predicate OpenedOnce(p: Endpoint, wire: seq<Frame>, q: Endpoint) {
    forall id: Id :: InFlight(Openings, p, wire, id) <= if p.Has(id) && !q.Has(id) then 1 else 0
  }

  /** Everything in the direction from p to q that has credit or takes credit, for one stream. */
  function Total(p: Endpoint, wp: seq<Frame>, q: Endpoint, wq: seq<Frame>, id: Id): nat {
    WriterSide(p, wp, id) + ReaderSide(q, wq, id)
  }

  /** The stream is in both tables (or not made yet), and its reader has not aborted it. */
  predicate Intact(p: Endpoint, q: Endpoint, id: Id) {
    && (p.Has(id) ==> id in p.sess.registered)
    && (q.Has(id) ==> id in q.sess.registered && !q.sess.streams[id].reset)
  }

  ghost predicate Balanced(p: Endpoint, wp: seq<Frame>, q: Endpoint, wq: seq<Frame>) {
    forall id: Id ::
      && Total(p, wp, q, wq, id) <= p.sess.cfg.window
      && (Intact(p, q, id) ==> Total(p, wp, q, wq, id) == p.sess.cfg.window)
  }

  /** The limits are the same at both ends, and the parities opposite. */
  ghost predicate Matched(p: Endpoint, q: Endpoint) {
    q.sess.cfg == p.sess.cfg.(isClient := !p.sess.cfg.isClient)
  }

  ghost predicate OneWay(p: Endpoint, wp: seq<Frame>, q: Endpoint, wq: seq<Frame>) {
    && EndSound(p)
    && LateSound(p)
    && TrafficOk(p, wp, q)
    && StreamsKnown(p, q)
    && OpenedOnce(p, wp, q)
    && Balanced(p, wp, q, wq)
  }

  ghost predicate PairInv(p: Endpoint, wp: seq<Frame>, q: Endpoint, wq: seq<Frame>) {
    Matched(p, q) && OneWay(p, wp, q, wq) && OneWay(q, wq, p, wp)
  }

  // Growth: streams are never forgotten nor put back in the table, and closing and aborting are
  // never undone

  predicate StreamEvolves(a: StreamState, b: StreamState) {
    && (a.localClosed ==> b.localClosed)
    && (a.remoteClosed ==> b.remoteClosed)
    && (a.reset ==> b.reset)
  }

  ghost predicate Evolves(e: Endpoint, e': Endpoint) {
    && e'.sess.cfg == e.sess.cfg
    && forall id | id in e.sess.streams ::
         && id in e'.sess.streams
         && StreamEvolves(e.sess.streams[id], e'.sess.streams[id])
         && (id in e'.sess.registered ==> id in e.sess.registered)
  }

  lemma FrameOkGrows(p: Endpoint, p': Endpoint, q: Endpoint, q': Endpoint, f: Frame)
    requires FrameOk(p, q, f) && Evolves(p, p') && Evolves(q, q')
    requires q'.Has(f.id) && !q.Has(f.id) ==> Amount(Openings, f, f.id) == 0
    ensures FrameOk(p', q', f)
  {
  }

  lemma TaskOkGrows(p: Endpoint, p': Endpoint, q: Endpoint, q': Endpoint, t: Task)
    requires TaskOk(p, q, t) && Evolves(p, p') && Evolves(q, q')
    requires forall id | q'.Has(id) && !q.Has(id) :: InTask(Openings, t, id) == 0
    ensures TaskOk(p', q', t)
  {
    if t.Emit? {
      FrameOkGrows(p, p', q, q', t.frame);
      TaskOkGrows(p, p', q, q', t.next);
    }
  }

  /** Traffic stays in order as both ends grow, so long as no new stream of q's is still announced. */
  lemma TrafficGrows(p: Endpoint, p': Endpoint, wire: seq<Frame>, q: Endpoint, q': Endpoint)
    requires TrafficOk(p, wire, q) && Evolves(p, p') && Evolves(q, q')
    requires p'.hand == p.hand && p'.reader == p.reader
    requires forall id | q'.Has(id) && !q.Has(id) :: InFlight(Openings, p, wire, id) == 0
    ensures TrafficOk(p', wire, q')
  {
    forall i | 0 <= i < |wire| ensures FrameOk(p', q', wire[i]) {
      var f := wire[i];
      if q'.Has(f.id) && !q.Has(f.id) && Amount(Openings, f, f.id) > 0 {
        InFramesPositive(Openings, wire, i, f.id);
      }
      FrameOkGrows(p, p', q, q', f);
    }
    forall k | 0 <= k < |p.hand| ensures TaskOk(p', q', p.hand[k]) {
      forall id | q'.Has(id) && !q.Has(id) ensures InTask(Openings, p.hand[k], id) == 0 {
        if InTask(Openings, p.hand[k], id) > 0 {
          InHandPositive(Openings, p.hand, k, id);
        }
      }
      TaskOkGrows(p, p', q, q', p.hand[k]);
    }
    TaskOkGrows(p, p', q, q', p.reader);
  }
}
