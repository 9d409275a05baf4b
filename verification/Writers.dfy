/** Several goroutines writing frames through one writer: its header buffer is shared, header and payload go
    out in separate writes, and the connection may fail in any of them, after part of it. A step is one of
    those, under every interleaving. */
module Writers {
  import opened Bytes
  import opened Frames

  datatype Phase = Idle | Locked | Filled | HeaderOut

  /** `lost` are the frames whose writing failed. */
  datatype Goroutine = Goroutine(todo: seq<Frame>, lost: seq<Frame>, phase: Phase)

  /** `order` and `torn` are histories: which goroutine wrote which frame, in the order of their turns, and the
      frame whose writing broke the connection, with how much of it got out. */
  datatype Shared = Shared(
    wire: seq<byte>,
    header: seq<byte>,
    holder: Option<nat>,
    gs: seq<Goroutine>,
    order: seq<(nat, Frame)>,
    torn: Option<(Frame, nat)>)

  function HeaderOf(f: Frame): (h: seq<byte>)
    ensures |h| == HEADER_SIZE
  {
    EncodeHeader(f.typ, f.id, Wrap32(|f.payload|))
  }

  function Begin(lists: seq<seq<Frame>>): Shared {
    Shared([], [], None, seq(|lists|, i requires 0 <= i < |lists| => Goroutine(lists[i], [], Idle)), [], None)
  }

  /** A goroutine's turn, in which the connection accepts `room` bytes at most. */
  datatype Turn = Turn(i: nat, room: nat)

  /** A goroutine with a frame to write may go on, unless it waits for the mutex. */
  predicate CanGo(s: Shared, i: nat) {
    i < |s.gs| && s.gs[i].todo != [] && (s.gs[i].phase.Idle? ==> s.holder.None?)
  }

  function Acquire(s: Shared, i: nat): Shared
    requires CanGo(s, i)
  {
    s.(holder := Some(i), gs := s.gs[i := s.gs[i].(phase := Locked)])
  }

  function FillHeader(s: Shared, i: nat): Shared
    requires CanGo(s, i)
  {
    s.(header := HeaderOf(s.gs[i].todo[0]), gs := s.gs[i := s.gs[i].(phase := Filled)])
  }

  /** The write failed after `n` bytes of the frame: the goroutine returns an error, and the next gets its turn. A
      connection that has failed takes nothing more. */
  function Fail(s: Shared, i: nat, n: nat, out: seq<byte>): Shared
    requires CanGo(s, i)
  {
    var g := s.gs[i];
    s.(wire := s.wire + out, holder := None,
       torn := if s.torn.Some? then s.torn else Some((g.todo[0], n)),
       gs := s.gs[i := Goroutine(g.todo[1..], g.lost + [g.todo[0]], Idle)])
  }

  function PutHeader(s: Shared, i: nat, room: nat): Shared
    requires CanGo(s, i)
  {
    if s.torn.Some? then Fail(s, i, 0, [])
    else if room < |s.header| then Fail(s, i, room, s.header[..room])
    else s.(wire := s.wire + s.header, gs := s.gs[i := s.gs[i].(phase := HeaderOut)])
  }

  /** An empty payload needs no write. */
  function PutPayload(s: Shared, i: nat, room: nat): Shared
    requires CanGo(s, i)
  {
    var g := s.gs[i];
    var f := g.todo[0];
    if room < |f.payload| then Fail(s, i, HEADER_SIZE + room, f.payload[..room])
    else
      s.(wire := s.wire + f.payload, holder := None, order := s.order + [(i, f)],
         gs := s.gs[i := Goroutine(g.todo[1..], g.lost, Idle)])
  }

  function Go(s: Shared, t: Turn): Shared
    requires CanGo(s, t.i)
  {
    match s.gs[t.i].phase
    case Idle => Acquire(s, t.i)
    case Locked => FillHeader(s, t.i)
    case Filled => PutHeader(s, t.i, t.room)
    case HeaderOut => PutPayload(s, t.i, t.room)
  }

  function Run(s: Shared, turns: seq<Turn>): Option<Shared>
    decreases |turns|
  {
    if turns == [] then Some(s)
    else if !CanGo(s, turns[0].i) then None
    else Run(Go(s, turns[0]), turns[1..])
  }

  function FramesOf(order: seq<(nat, Frame)>): seq<Frame> {
    if order == [] then [] else FramesOf(order[..|order| - 1]) + [order[|order| - 1].1]
  }

  /** What one goroutine wrote. */
  function By(i: nat, order: seq<(nat, Frame)>): seq<Frame> {
    if order == [] then []
    else
      var last := order[|order| - 1];
      By(i, order[..|order| - 1]) + if last.0 == i then [last.1] else []
  }

  /** The goroutine past its header, if there is one. */
  predicate MidFrame(s: Shared) {
    && s.holder.Some? && s.holder.value < |s.gs|
    && s.gs[s.holder.value].phase.HeaderOut? && s.gs[s.holder.value].todo != []
  }

  /** What is on the wire after the whole frames: what is left of a torn frame, or the header of the frame under
      way. */
  function Tail(s: Shared): seq<byte> {
    if s.torn.Some? then EncodeFrame(s.torn.value.0)[..Min(s.torn.value.1, |EncodeFrame(s.torn.value.0)|)]
    else if MidFrame(s) then HeaderOf(s.gs[s.holder.value].todo[0])
    else []
  }

  /** At most one goroutine is past the mutex, the header it filled is still in the buffer, and it is past its
      header only on a connection that works. */
  ghost predicate Exclusive(s: Shared) {
    forall i | 0 <= i < |s.gs| ::
      && (!s.gs[i].phase.Idle? ==> s.holder == Some(i) && s.gs[i].todo != [])
      && (s.gs[i].phase.Filled? ==> s.header == HeaderOf(s.gs[i].todo[0]))
      && (s.gs[i].phase.HeaderOut? ==> s.torn.None?)
  }

  /** What each goroutine wrote, failed to write and has still to write make up its list; and nothing fails before
      the connection does. */
  ghost predicate Shares(s: Shared, lists: seq<seq<Frame>>) {
    && |s.gs| == |lists|
    && (forall i | 0 <= i < |lists| ::
          By(i, s.order) + s.gs[i].lost + s.gs[i].todo == lists[i] && (s.torn.None? ==> s.gs[i].lost == []))
  }

  ghost predicate WireWhole(s: Shared) {
    s.wire == EncodeAll(FramesOf(s.order)) + Tail(s)
  }

  predicate Fits(frames: seq<Frame>, max: uint32) {
    forall f <- frames :: Sendable(f, max)
  }

  /** The torn frame is one that fits, and is not all there. */
  ghost predicate TornFits(s: Shared, max: uint32) {
    s.torn.Some? ==> Sendable(s.torn.value.0, max) && s.torn.value.1 < |EncodeFrame(s.torn.value.0)|
  }

  ghost predicate Sound(s: Shared, lists: seq<seq<Frame>>, max: uint32) {
    Exclusive(s) && Shares(s, lists) && WireWhole(s) && Fits(FramesOf(s.order), max) && TornFits(s, max)
  }

  lemma Appended(order: seq<(nat, Frame)>, i: nat, f: Frame)
    ensures FramesOf(order + [(i, f)]) == FramesOf(order) + [f]
    ensures forall j: nat :: By(j, order + [(i, f)]) == By(j, order) + if i == j then [f] else []
  {
    assert (order + [(i, f)])[..|order|] == order;
  }

  lemma GoExclusive(s: Shared, t: Turn)
    requires Exclusive(s) && CanGo(s, t.i)
    ensures Exclusive(Go(s, t))
  {
  }

  // Who wrote what

  lemma FailShares(s: Shared, i: nat, n: nat, out: seq<byte>, lists: seq<seq<Frame>>)
    requires Shares(s, lists) && CanGo(s, i)
    ensures Shares(Fail(s, i, n, out), lists)
  {
    var g := s.gs[i];
    assert By(i, s.order) + (g.lost + [g.todo[0]]) + g.todo[1..] == By(i, s.order) + g.lost + g.todo;
  }

  lemma WroteShares(s: Shared, i: nat, room: nat, lists: seq<seq<Frame>>)
    requires Shares(s, lists) && CanGo(s, i) && s.torn.None? && room >= |s.gs[i].todo[0].payload|
    ensures Shares(PutPayload(s, i, room), lists)
  {
    var g := s.gs[i];
    var f := g.todo[0];
    var s' := PutPayload(s, i, room);
    Appended(s.order, i, f);
    assert By(i, s.order) + [f] + [] + g.todo[1..] == By(i, s.order) + [] + g.todo;
    forall j | 0 <= j < |lists| && j != i ensures s'.gs[j] == s.gs[j] && By(j, s'.order) == By(j, s.order) {
    }
  }

  lemma PhaseShares(s: Shared, s': Shared, lists: seq<seq<Frame>>)
    requires Shares(s, lists) && |s'.gs| == |s.gs| && s'.order == s.order && s'.torn == s.torn
    requires forall i | 0 <= i < |s.gs| :: s'.gs[i].todo == s.gs[i].todo && s'.gs[i].lost == s.gs[i].lost
    ensures Shares(s', lists)
  {
  }

  lemma GoShares(s: Shared, t: Turn, lists: seq<seq<Frame>>)
    requires Exclusive(s) && Shares(s, lists) && CanGo(s, t.i)
    ensures Shares(Go(s, t), lists)
  {
    var i := t.i;
    match s.gs[i].phase {
      case Filled =>
        if s.torn.Some? {
          FailShares(s, i, 0, [], lists);
        } else if t.room < |s.header| {
          FailShares(s, i, t.room, s.header[..t.room], lists);
        } else {
          PhaseShares(s, Go(s, t), lists);
        }
      case HeaderOut =>
        if t.room < |s.gs[i].todo[0].payload| {
          FailShares(s, i, HEADER_SIZE + t.room, s.gs[i].todo[0].payload[..t.room], lists);
        } else {
          WroteShares(s, i, t.room, lists);
        }
      case _ => PhaseShares(s, Go(s, t), lists);
    }
  }

  // What is on the wire

  lemma PayloadOut(order: seq<(nat, Frame)>, i: nat, f: Frame)
    ensures EncodeAll(FramesOf(order)) + HeaderOf(f) + f.payload == EncodeAll(FramesOf(order + [(i, f)]))
  {
    Appended(order, i, f);
    EncodeAllAppends(FramesOf(order), f);
  }

  lemma HeaderTorn(f: Frame, n: nat)
    requires n < HEADER_SIZE
    ensures EncodeFrame(f)[..n] == HeaderOf(f)[..n]
  {
  }

  lemma PayloadTorn(f: Frame, n: nat)
    requires n < |f.payload|
    ensures EncodeFrame(f)[..HEADER_SIZE + n] == HeaderOf(f) + f.payload[..n]
  {
    var b := EncodeFrame(f);
    assert b == HeaderOf(f) + f.payload;
  }

  lemma SilentWire(s: Shared, i: nat, room: nat)
    requires WireWhole(s) && CanGo(s, i) && s.torn.Some?
    ensures WireWhole(PutHeader(s, i, room))
  {
    assert PutHeader(s, i, room).wire == s.wire;
  }

  lemma HeaderWire(s: Shared, i: nat, room: nat)
    requires Exclusive(s) && WireWhole(s) && CanGo(s, i) && s.gs[i].phase.Filled? && s.torn.None?
    ensures WireWhole(PutHeader(s, i, room))
  {
    var f := s.gs[i].todo[0];
    assert s.header == HeaderOf(f) && s.holder == Some(i) && Tail(s) == [];
    Extends(EncodeAll(FramesOf(s.order)), s.wire);
    if room < HEADER_SIZE {
      HeaderBreaks(s, i, room, f);
    } else {
      HeaderGoesOut(s, i, room, f);
    }
  }

  lemma Extends(a: seq<byte>, b: seq<byte>)
    requires b == a + []
    ensures b == a
  {
  }

  lemma HeaderBreaks(s: Shared, i: nat, room: nat, f: Frame)
    requires CanGo(s, i) && f == s.gs[i].todo[0] && s.header == HeaderOf(f) && s.torn.None? && room < HEADER_SIZE
    requires s.wire == EncodeAll(FramesOf(s.order))
    ensures WireWhole(PutHeader(s, i, room))
  {
    HeaderTorn(f, room);
    var s' := PutHeader(s, i, room);
    assert s'.torn == Some((f, room)) && s'.order == s.order && Tail(s') == HeaderOf(f)[..room];
  }

  lemma HeaderGoesOut(s: Shared, i: nat, room: nat, f: Frame)
    requires CanGo(s, i) && f == s.gs[i].todo[0] && s.header == HeaderOf(f) && s.torn.None? && room >= HEADER_SIZE
    requires s.holder == Some(i) && s.wire == EncodeAll(FramesOf(s.order))
    ensures WireWhole(PutHeader(s, i, room))
  {
    var s' := PutHeader(s, i, room);
    assert MidFrame(s') && s'.order == s.order && Tail(s') == HeaderOf(f);
  }

  lemma PayloadWire(s: Shared, i: nat, room: nat)
    requires Exclusive(s) && WireWhole(s) && CanGo(s, i) && s.gs[i].phase.HeaderOut?
    ensures WireWhole(PutPayload(s, i, room))
  {
    var f := s.gs[i].todo[0];
    var s' := PutPayload(s, i, room);
    assert Tail(s) == HeaderOf(f);
    if room < |f.payload| {
      PayloadTorn(f, room);
      assert Tail(s') == HeaderOf(f) + f.payload[..room];
    } else {
      PayloadOut(s.order, i, f);
      assert Tail(s') == [] && s'.wire == s.wire + f.payload;
    }
  }

  lemma GoWire(s: Shared, t: Turn)
    requires Exclusive(s) && WireWhole(s) && CanGo(s, t.i)
    ensures WireWhole(Go(s, t))
  {
    match s.gs[t.i].phase {
      case Idle => assert Tail(Go(s, t)) == Tail(s);
      case Locked => assert Tail(Go(s, t)) == Tail(s);
      case Filled =>
        if s.torn.Some? {
          SilentWire(s, t.i, t.room);
        } else {
          HeaderWire(s, t.i, t.room);
        }
      case HeaderOut => PayloadWire(s, t.i, t.room);
    }
  }

  lemma NextFits(s: Shared, i: nat, lists: seq<seq<Frame>>, max: uint32)
    requires Shares(s, lists) && CanGo(s, i) && Fits(lists[i], max)
    ensures Sendable(s.gs[i].todo[0], max)
  {
    assert s.gs[i].todo[0] == lists[i][|By(i, s.order) + s.gs[i].lost|];
  }

  lemma FailFits(s: Shared, i: nat, n: nat, out: seq<byte>, max: uint32)
    requires CanGo(s, i) && Sendable(s.gs[i].todo[0], max) && n < |EncodeFrame(s.gs[i].todo[0])| && TornFits(s, max)
    ensures Fail(s, i, n, out).order == s.order && TornFits(Fail(s, i, n, out), max)
  {
  }

  lemma HeaderFits(s: Shared, i: nat, room: nat, max: uint32)
    requires CanGo(s, i) && Sendable(s.gs[i].todo[0], max) && |s.header| == HEADER_SIZE && TornFits(s, max)
    ensures PutHeader(s, i, room).order == s.order && TornFits(PutHeader(s, i, room), max)
  {
    if s.torn.Some? {
      FailFits(s, i, 0, [], max);
    } else if room < |s.header| {
      FailFits(s, i, room, s.header[..room], max);
    }
  }

  lemma PayloadFits(s: Shared, i: nat, room: nat, max: uint32)
    requires CanGo(s, i) && Sendable(s.gs[i].todo[0], max) && Fits(FramesOf(s.order), max) && TornFits(s, max)
    ensures Fits(FramesOf(PutPayload(s, i, room).order), max) && TornFits(PutPayload(s, i, room), max)
  {
    var f := s.gs[i].todo[0];
    if room < |f.payload| {
      FailFits(s, i, HEADER_SIZE + room, f.payload[..room], max);
    } else {
      Appended(s.order, i, f);
    }
  }

  lemma GoFits(s: Shared, t: Turn, lists: seq<seq<Frame>>, max: uint32)
    requires Exclusive(s) && Shares(s, lists) && CanGo(s, t.i) && Fits(lists[t.i], max)
    requires Fits(FramesOf(s.order), max) && TornFits(s, max)
    ensures Fits(FramesOf(Go(s, t).order), max) && TornFits(Go(s, t), max)
  {
    NextFits(s, t.i, lists, max);
    match s.gs[t.i].phase {
      case Filled => HeaderFits(s, t.i, t.room, max);
      case HeaderOut => PayloadFits(s, t.i, t.room, max);
      case _ =>
    }
  }

  lemma {:induction false} RunSound(s: Shared, turns: seq<Turn>, lists: seq<seq<Frame>>, max: uint32)
    requires Sound(s, lists, max) && Run(s, turns).Some? && forall i | 0 <= i < |lists| :: Fits(lists[i], max)
    ensures Sound(Run(s, turns).value, lists, max)
    decreases |turns|
  {
    if turns != [] {
      var t := turns[0];
      GoExclusive(s, t);
      GoShares(s, t, lists);
      GoWire(s, t);
      GoFits(s, t, lists, max);
      RunSound(Go(s, t), turns[1..], lists, max);
    }
  }

  /** How a reader ends: cleanly, or inside the frame of which only so many bytes got out. */
  function EndAfter(torn: Option<(Frame, nat)>): ReadResult {
    if torn.None? || torn.value.1 == 0 then EndOfStream
    else if torn.value.1 < HEADER_SIZE then TruncatedHeader
    else TruncatedPayload
  }

  /** Under every interleaving, and however the connection fails: the wire holds whole frames in the order of the
      turns, plus at most the header of the frame under way or part of the one frame that failed; each goroutine's
      frames are on it in that goroutine's order, and are exactly those it neither failed to write nor has still
      to write; nothing fails before the connection does; and between turns a reader gets exactly the whole frames
      back, then a clean end, or a truncated one if the connection failed inside a frame. */
  lemma WritersDoNotInterleave(lists: seq<seq<Frame>>, turns: seq<Turn>, max: uint32)
    requires forall i | 0 <= i < |lists| :: Fits(lists[i], max)
    requires Run(Begin(lists), turns).Some?
    ensures var s := Run(Begin(lists), turns).value;
            && |s.gs| == |lists|
            && s.wire == EncodeAll(FramesOf(s.order)) + Tail(s)
            && (forall i | 0 <= i < |lists| ::
                  By(i, s.order) + s.gs[i].lost + s.gs[i].todo == lists[i] && (s.torn.None? ==> s.gs[i].lost == []))
            && (s.holder.None? || s.torn.Some? ==>
                  var t := ReadAll(s.wire, max);
                  t.frames == FramesOf(s.order) && t.last == EndAfter(s.torn))
  {
    var s := Run(Begin(lists), turns).value;
    RunSound(Begin(lists), turns, lists, max);
    ReadsFramesThen(FramesOf(s.order), Tail(s), max, s.wire);
    if s.torn.Some? {
      TornFrameIsNotRead(s.torn.value.0, s.torn.value.1, max);
    }
    assert FramesOf(s.order) + [] == FramesOf(s.order);
  }
}
