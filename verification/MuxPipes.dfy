/** With one sequential writer per direction, the multiplexer is a set of independent FIFO pipes. */
module MuxPipes {
  import opened Bytes
  import opened Frames
  import opened StreamModel
  import opened SessionModel
  import opened MuxSystem
  import opened MuxFlow
  import opened MuxInvariant
  import opened MuxLocal
  import opened MuxRemote
  import opened MuxTheorems
  import opened MuxSlots
  import opened MuxBytes

  // What a line of frames will do to a stream

  datatype Ending = StillOpen | EndsOrderly | EndsAborted

  datatype Flow = Flow(bytes: seq<byte>, ending: Ending)

  const NOTHING: Flow := Flow([], StillOpen)

  function Then(a: Flow, b: Flow): Flow {
    if a.ending.StillOpen? then Flow(a.bytes + b.bytes, b.ending) else a
  }

  function FrameFlow(f: Frame, id: Id): Flow {
    if f.id != id then NOTHING
    else if f.typ == STREAM_DATA then Flow(f.payload, StillOpen)
    else if f.typ == CLOSE_STREAM then Flow([], if Orderly(f.payload) then EndsOrderly else EndsAborted)
    else NOTHING
  }

  /** The bytes a receiver will take from a line of frames, up to the first close, and how it ends. */
  function FlowOf(frames: seq<Frame>, id: Id): Flow {
    if frames == [] then NOTHING else Then(FrameFlow(frames[0], id), FlowOf(frames[1..], id))
  }

  function TaskFlow(t: Task, id: Id): Flow {
    if t.Emit? then FrameFlow(t.frame, id) else NOTHING
  }

  function HandFlow(tasks: seq<Task>, id: Id): Flow {
    if tasks == [] then NOTHING else Then(TaskFlow(tasks[0], id), HandFlow(tasks[1..], id))
  }

  /** Everything under way from an end on one stream: the wire first, then what is in hand. */
  function Line(e: Endpoint, wire: seq<Frame>, id: Id): Flow {
    Then(FlowOf(wire, id), HandFlow(e.hand, id))
  }

  lemma ThenAssoc(a: Flow, b: Flow, c: Flow)
    ensures Then(Then(a, b), c) == Then(a, Then(b, c))
  {
    assert (a.bytes + b.bytes) + c.bytes == a.bytes + (b.bytes + c.bytes);
  }

  lemma ThenNothing(a: Flow)
    ensures Then(a, NOTHING) == a && Then(NOTHING, a) == a
  {
    assert a.bytes + [] == a.bytes && [] + a.bytes == a.bytes;
  }

  lemma FlowAppend(frames: seq<Frame>, f: Frame, id: Id)
    ensures FlowOf(frames + [f], id) == Then(FlowOf(frames, id), FrameFlow(f, id))
  {
    if frames == [] {
      assert [f][1..] == [] && frames + [f] == [f];
      ThenNothing(FrameFlow(f, id));
    } else {
      assert (frames + [f])[1..] == frames[1..] + [f];
      FlowAppend(frames[1..], f, id);
      ThenAssoc(FrameFlow(frames[0], id), FlowOf(frames[1..], id), FrameFlow(f, id));
    }
  }

  lemma {:induction false} HandFlowConcat(a: seq<Task>, b: seq<Task>, id: Id)
    ensures HandFlow(a + b, id) == Then(HandFlow(a, id), HandFlow(b, id))
  {
    if a == [] {
      assert a + b == b;
      ThenNothing(HandFlow(b, id));
    } else {
      assert (a + b)[1..] == a[1..] + b;
      HandFlowConcat(a[1..], b, id);
      ThenAssoc(TaskFlow(a[0], id), HandFlow(a[1..], id), HandFlow(b, id));
    }
  }

  lemma HandFlowOne(t: Task, id: Id)
    ensures HandFlow([t], id) == TaskFlow(t, id)
  {
    assert [t][1..] == [];
    ThenNothing(TaskFlow(t, id));
  }

  /** Splitting what is in hand around one task. */
  lemma HandFlowSplit(tasks: seq<Task>, k: nat, id: Id)
    requires k < |tasks|
    ensures HandFlow(tasks, id) ==
            Then(HandFlow(tasks[..k], id), Then(TaskFlow(tasks[k], id), HandFlow(tasks[k + 1..], id)))
  {
    assert tasks == tasks[..k] + ([tasks[k]] + tasks[k + 1..]);
    HandFlowConcat(tasks[..k], [tasks[k]] + tasks[k + 1..], id);
    HandFlowConcat([tasks[k]], tasks[k + 1..], id);
    HandFlowOne(tasks[k], id);
  }

  lemma LineAppend(e: Endpoint, e': Endpoint, wire: seq<Frame>, t: Task, id: Id)
    requires e'.hand == e.hand + [t]
    ensures Line(e', wire, id) == Then(Line(e, wire, id), TaskFlow(t, id))
  {
    HandFlowConcat(e.hand, [t], id);
    HandFlowOne(t, id);
    ThenAssoc(FlowOf(wire, id), HandFlow(e.hand, id), TaskFlow(t, id));
  }

  // The writer's discipline

  /** A frame that a stream's receiver acts on. */
  predicate Relevant(t: Task, id: Id) {
    t.Emit? && t.frame.id == id && (t.frame.typ == STREAM_DATA || t.frame.typ == CLOSE_STREAM)
  }

  predicate AbortsAny(t: Task) {
    t.Emit? && t.frame.typ == CLOSE_STREAM && !Orderly(t.frame.payload)
  }

  /** One writer at a time on each stream: a write or an orderly close begins only when the stream's
      earlier frames have been written out. Aborts may come at any time; Reset is for failures. */
  predicate Sequential(e: Endpoint, op: Op) {
    match op
    case OpWrite(id, _) => forall k | 0 <= k < |e.hand| :: !Relevant(e.hand[k], id)
    case OpClose(id, r) => Orderly(r) ==> forall k | 0 <= k < |e.hand| :: !Relevant(e.hand[k], id)
    case OpReset(_, r) => !Orderly(r)
    case _ => true
  }

  predicate SequentialStep(sys: Sys, step: Step) {
    step.Local? ==> Sequential(sys.End(step.p), step.op)
  }

  predicate SequentialRun(sys: Sys, steps: seq<Step>)
    decreases |steps|
  {
    steps != [] && CanStep(sys, steps[0]) ==>
      SequentialStep(sys, steps[0]) && SequentialRun(Take(sys, steps[0]), steps[1..])
  }

  /** In hand, at most an abort follows another frame of the same stream; whatever a stream's receiver
      will act on comes from a caller that holds the stream; and the reader itself sends neither data nor
      an orderly close. */
  ghost predicate HandOrdered(e: Endpoint) {
    && (forall i, k, id: Id | 0 <= i < k < |e.hand| && Relevant(e.hand[i], id) && Relevant(e.hand[k], id) ::
          AbortsAny(e.hand[k]))
    && (forall k, id: Id | 0 <= k < |e.hand| && Relevant(e.hand[k], id) :: id in e.held)
    && (e.reader.Emit? ==> e.reader.frame.typ != STREAM_DATA)
    && (e.reader.Emit? && e.reader.frame.typ == CLOSE_STREAM ==> e.reader.frame.payload == LIMIT_STREAMS)
  }

  // The invariant, one stream and one direction at a time

  /** Not made yet, or in the table and taking data. */
  predicate Receptive(q: Endpoint, id: Id) {
    q.Has(id) ==> id in q.sess.registered && q.sess.streams[id].Accepting()
  }

  predicate StillWriting(p: Endpoint, id: Id) {
    p.Has(id) ==> !WriterDone(p, id)
  }

  /** How what is under way relates to what has been written. */
  predicate Faithful(p: Endpoint, line: Flow, taken: seq<byte>, id: Id) {
    && taken + line.bytes <= p.Written(id)
    && (line.ending.EndsOrderly? || (line.ending.StillOpen? && StillWriting(p, id)) ==>
          taken + line.bytes == p.Written(id))
  }

  predicate PipeAt(p: Endpoint, wp: seq<Frame>, q: Endpoint, id: Id) {
    && Taken(q, id) <= p.Written(id)
    && (Receptive(q, id) ==> Faithful(p, Line(p, wp, id), Taken(q, id), id))
    && (q.Has(id) && q.sess.streams[id].remoteClosed && !q.sess.streams[id].reset ==>
          Taken(q, id) == p.Written(id))
  }

  ghost predicate PipeInv(p: Endpoint, wp: seq<Frame>, q: Endpoint) {
    forall id: Id :: PipeAt(p, wp, q, id)
  }

  /** Under way, shorter and aborted: nothing more is promised. */
  lemma FaithfulTruncated(p: Endpoint, p': Endpoint, a: Flow, b: Flow, taken: seq<byte>, id: Id)
    requires Faithful(p, a, taken, id) && p'.Written(id) == p.Written(id)
    requires b.bytes <= a.bytes && (b.ending.EndsAborted? || (b.ending.StillOpen? && !StillWriting(p', id)))
    ensures Faithful(p', b, taken, id)
  {
    assert taken + b.bytes <= taken + a.bytes;
  }

  /** Frames that bear on a stream in an orderly way come from a side that has closed. */
  lemma OrderlyMeansClosed(p: Endpoint, wp: seq<Frame>, q: Endpoint, id: Id)
    requires TrafficOk(p, wp, q) && Line(p, wp, id).ending.EndsOrderly?
    ensures p.Has(id) && p.sess.streams[id].localClosed
  {
    if FlowOf(wp, id).ending.EndsOrderly? {
      var i := OrderlyFrame(wp, id);
      assert FrameOk(p, q, wp[i]);
      OrderlyIsNoRefusal(wp[i]);
    } else {
      var k := OrderlyTask(p.hand, id);
      assert TaskOk(p, q, p.hand[k]);
      OrderlyIsNoRefusal(p.hand[k].frame);
    }
  }

  lemma OrderlyIsNoRefusal(f: Frame)
    requires Orderly(f.payload)
    ensures f.payload != LIMIT_STREAMS
  {
    assert |LIMIT_STREAMS| == 22 && |REASON_OK| == 2;
  }

  lemma {:induction false} OrderlyFrame(frames: seq<Frame>, id: Id) returns (i: nat)
    requires FlowOf(frames, id).ending.EndsOrderly?
    ensures i < |frames| && frames[i].typ == CLOSE_STREAM && frames[i].id == id && Orderly(frames[i].payload)
  {
    if FrameFlow(frames[0], id).ending.EndsOrderly? {
      i := 0;
    } else {
      i := OrderlyFrame(frames[1..], id);
      i := i + 1;
    }
  }

  lemma {:induction false} OrderlyTask(tasks: seq<Task>, id: Id) returns (k: nat)
    requires HandFlow(tasks, id).ending.EndsOrderly?
    ensures k < |tasks| && tasks[k].Emit? && tasks[k].frame.typ == CLOSE_STREAM && tasks[k].frame.id == id
    ensures Orderly(tasks[k].frame.payload)
  {
    if TaskFlow(tasks[0], id).ending.EndsOrderly? {
      k := 0;
    } else {
      k := OrderlyTask(tasks[1..], id);
      k := k + 1;
    }
  }

  // Performing a task moves its frame past others' frames only

  lemma {:induction false} IrrelevantHand(tasks: seq<Task>, id: Id)
    requires forall k | 0 <= k < |tasks| :: !Relevant(tasks[k], id)
    ensures HandFlow(tasks, id) == NOTHING
  {
    if tasks != [] {
      assert !Relevant(tasks[0], id);
      IrrelevantHand(tasks[1..], id);
      ThenNothing(NOTHING);
    }
  }

  /** Aborts in hand carry no bytes and no orderly end. */
  lemma {:induction false} AbortingHand(tasks: seq<Task>, id: Id)
    requires forall k | 0 <= k < |tasks| && Relevant(tasks[k], id) :: AbortsAny(tasks[k])
    ensures HandFlow(tasks, id).bytes == [] && !HandFlow(tasks, id).ending.EndsOrderly?
  {
    if tasks != [] {
      assert Relevant(tasks[0], id) ==> AbortsAny(tasks[0]);
      AbortingHand(tasks[1..], id);
    }
  }

  /** Writing out the k-th task: what is under way stays the same, or is cut short by an abort. */
  lemma EmitLine(e: Endpoint, k: nat, wire: seq<Frame>, id: Id)
    requires HandOrdered(e) && HandShaped(e) && k < |e.hand| && e.hand[k].Emit?
    ensures var e' := ActPerform(e, k, false).0;
            var a, b := Line(e, wire, id), Line(e', wire + [e.hand[k].frame], id);
            b == a || (b.bytes <= a.bytes && b.ending.EndsAborted?)
  {
    var e' := ActPerform(e, k, false).0;
    var f := e.hand[k].frame;
    assert CallShaped(e.hand[k]);
    var w, h1, x, h2 := FlowOf(wire, id), HandFlow(e.hand[..k], id), FrameFlow(f, id), HandFlow(e.hand[k + 1..], id);
    HandFlowSplit(e.hand, k, id);
    HandFlowSplit(e'.hand, k, id);
    assert e'.hand[..k] == e.hand[..k] && e'.hand[k + 1..] == e.hand[k + 1..];
    FlowAppend(wire, f, id);
    ThenNothing(h2);
    if x == NOTHING {
      ThenNothing(w);
    } else if AbortsAny(e.hand[k]) {
      AbortMovesUp(w, h1, x, h2);
    } else {
      forall i | 0 <= i < |e.hand[..k]| ensures !Relevant(e.hand[..k][i], id) {
        assert Relevant(e.hand[k], id);
      }
      IrrelevantHand(e.hand[..k], id);
      ThenNothing(Then(x, h2));
      ThenNothing(h2);
      ThenAssoc(w, x, h2);
    }
  }

  lemma AbortMovesUp(w: Flow, h1: Flow, x: Flow, h2: Flow)
    requires x == Flow([], EndsAborted)
    ensures var a, b := Then(w, Then(h1, Then(x, h2))), Then(Then(w, x), Then(h1, h2));
            b == a || (b.bytes <= a.bytes && b.ending.EndsAborted?)
  {
    assert w.bytes + [] == w.bytes;
  }

  /** Losing the k-th task's frame leaves a shorter line that promises no more. */
  lemma LostLine(e: Endpoint, k: nat, wire: seq<Frame>, id: Id)
    requires HandOrdered(e) && HandShaped(e) && k < |e.hand| && e.hand[k].Emit?
    ensures var e' := ActPerform(e, k, true).0;
            var a, b := Line(e, wire, id), Line(e', wire, id);
            b == a || (b.bytes <= a.bytes && !b.ending.EndsOrderly? && Relevant(e.hand[k], id))
  {
    var e' := ActPerform(e, k, true).0;
    assert CallShaped(e.hand[k]);
    var w, h1, x, h2 := FlowOf(wire, id), HandFlow(e.hand[..k], id), TaskFlow(e.hand[k], id), HandFlow(e.hand[k + 1..], id);
    HandFlowSplit(e.hand, k, id);
    HandFlowSplit(e'.hand, k, id);
    assert e'.hand[..k] == e.hand[..k] && e'.hand[k + 1..] == e.hand[k + 1..];
    ThenNothing(h2);
    if x != NOTHING {
      var rest := e.hand[k + 1..];
      forall i | 0 <= i < |rest| && Relevant(rest[i], id) ensures AbortsAny(rest[i]) {
        assert Relevant(e.hand[k], id) && Relevant(e.hand[k + 1 + i], id);
      }
      AbortingHand(rest, id);
      DropMiddle(w, h1, x, h2);
    }
  }

  lemma DropMiddle(w: Flow, h1: Flow, x: Flow, h2: Flow)
    requires h2.bytes == [] && !h2.ending.EndsOrderly?
    ensures var a, b := Then(w, Then(h1, Then(x, h2))), Then(w, Then(h1, h2));
            b == a || (b.bytes <= a.bytes && !b.ending.EndsOrderly?)
  {
    if w.ending.StillOpen? && h1.ending.StillOpen? {
      assert h1.bytes + [] == h1.bytes;
      assert w.bytes + h1.bytes <= w.bytes + (h1.bytes + x.bytes);
    }
  }

  // The discipline is kept

  lemma OrderedTakesUp(e: Endpoint, e': Endpoint, t: Task)
    requires HandOrdered(e) && e'.hand == e.hand + [t] && e'.reader == e.reader && e.held <= e'.held
    requires forall id: Id | Relevant(t, id) ::
               id in e.held && (AbortsAny(t) || forall k | 0 <= k < |e.hand| :: !Relevant(e.hand[k], id))
    ensures HandOrdered(e')
  {
    forall i, k, id: Id | 0 <= i < k < |e'.hand| && Relevant(e'.hand[i], id) && Relevant(e'.hand[k], id)
      ensures AbortsAny(e'.hand[k])
    {
      if k < |e.hand| {
        assert Relevant(e.hand[i], id) && Relevant(e.hand[k], id);
      } else {
        assert Relevant(t, id) && Relevant(e.hand[i], id);
      }
    }
  }

  /** Tasks that moved on have nothing left for a stream's receiver. */
  lemma OrderedMovesOn(e: Endpoint, e': Endpoint)
    requires HandOrdered(e) && e.held <= e'.held && |e'.hand| == |e.hand|
    requires forall k | 0 <= k < |e.hand| :: e'.hand[k] == e.hand[k] || !e'.hand[k].Emit?
    requires e'.reader.Emit? ==> e'.reader.frame.typ != STREAM_DATA
    requires e'.reader.Emit? && e'.reader.frame.typ == CLOSE_STREAM ==> e'.reader.frame.payload == LIMIT_STREAMS
    ensures HandOrdered(e')
  {
    forall i, k, id: Id | 0 <= i < k < |e'.hand| && Relevant(e'.hand[i], id) && Relevant(e'.hand[k], id)
      ensures AbortsAny(e'.hand[k])
    {
      assert Relevant(e.hand[i], id) && Relevant(e.hand[k], id);
    }
    forall k, id: Id | 0 <= k < |e'.hand| && Relevant(e'.hand[k], id) ensures id in e'.held {
      assert Relevant(e.hand[k], id);
    }
  }

  lemma CallOrdered(e: Endpoint, op: Op)
    requires HandOrdered(e) && Enabled(e, op) && Sequential(e, op)
    requires op.OpOpen? || op.OpWrite? || op.OpClose? || op.OpReset? || op.OpPing?
    ensures HandOrdered(Act(e, op).0)
  {
    var e' := Act(e, op).0;
    var t := e'.hand[|e.hand|];
    assert e'.hand == e.hand + [t];
    OrderedTakesUp(e, e', t);
  }

  lemma ReadOrdered(e: Endpoint, id: Id, max: nat)
    requires HandOrdered(e) && Enabled(e, OpRead(id, max))
    ensures HandOrdered(ActRead(e, id, max))
  {
    var e' := ActRead(e, id, max);
    if |e'.hand| > |e.hand| {
      OrderedTakesUp(e, e', e'.hand[|e.hand|]);
    } else {
      assert e'.hand == e.hand;
      OrderedMovesOn(e, e');
    }
  }

  lemma LocalOrdered(e: Endpoint, op: Op)
    requires HandOrdered(e) && HandShaped(e) && Enabled(e, op) && Sequential(e, op)
    ensures HandOrdered(Act(e, op).0)
  {
    match op
    case OpRead(id, max) => ReadOrdered(e, id, max);
    case OpOpenReturn(_) => OrderedMovesOn(e, Act(e, op).0);
    case OpOpenCancel(_) => OrderedMovesOn(e, Act(e, op).0);
    case OpAccept => OrderedMovesOn(e, Act(e, op).0);
    case OpEnd(_, _) => OrderedMovesOn(e, Act(e, op).0);
    case OpPerform(k, lost) =>
      assert CallShaped(e.hand[k]);
      OrderedMovesOn(e, Act(e, op).0);
    case OpReader(lost) => OrderedMovesOn(e, Act(e, op).0);
    case _ => CallOrdered(e, op);
  }

  // A writer's own operations

  /** Nothing the stream's receiver will see, and nothing written. */
  lemma QuietPipe(p: Endpoint, wp: seq<Frame>, p': Endpoint, wp': seq<Frame>, q: Endpoint, id: Id)
    requires PipeAt(p, wp, q, id) && p'.Written(id) == p.Written(id)
    requires Line(p', wp', id) == Line(p, wp, id)
    requires StillWriting(p', id) ==> StillWriting(p, id)
    ensures PipeAt(p', wp', q, id)
  {
  }

  /** A line cut short. */
  lemma CutPipe(p: Endpoint, wp: seq<Frame>, p': Endpoint, wp': seq<Frame>, q: Endpoint, id: Id)
    requires PipeAt(p, wp, q, id) && p'.Written(id) == p.Written(id)
    requires Line(p', wp', id).bytes <= Line(p, wp, id).bytes
    requires Line(p', wp', id).ending.EndsAborted? || (Line(p', wp', id).ending.StillOpen? && !StillWriting(p', id))
    ensures PipeAt(p', wp', q, id)
  {
    if Receptive(q, id) {
      FaithfulTruncated(p, p', Line(p, wp, id), Line(p', wp', id), Taken(q, id), id);
    }
  }

  lemma StillWritingBefore(p: Endpoint, p': Endpoint, id: Id)
    requires Evolves(p, p') && StillWriting(p', id)
    ensures StillWriting(p, id)
  {
    if p.Has(id) {
      assert StreamEvolves(p.sess.streams[id], p'.sess.streams[id]);
    }
  }

  lemma WritePipe(p: Endpoint, wp: seq<Frame>, q: Endpoint, id: Id, b: seq<byte>, id': Id)
    requires PipeAt(p, wp, q, id') && Enabled(p, OpWrite(id, b)) && TrafficOk(p, wp, q) && StreamsKnown(q, p)
    ensures PipeAt(ActWrite(p, id, b), wp, q, id')
  {
    var p' := ActWrite(p, id, b);
    var t := p'.hand[|p.hand|];
    LineAppend(p, p', wp, t, id');
    if id' == id {
      if Line(p, wp, id).ending.EndsOrderly? {
        OrderlyMeansClosed(p, wp, q, id);
      }
      if q.Has(id) {
        assert StreamKnown(q, p, id);
      }
      Extended(p, p', wp, q, id, t.frame.payload);
    } else {
      ThenNothing(Line(p, wp, id'));
      StreamOpEvolves(p, OpWrite(id, b));
      if StillWriting(p', id') {
        StillWritingBefore(p, p', id');
      }
      QuietPipe(p, wp, p', wp, q, id');
    }
  }

  /** The written history and the line grow by the same bytes. */
  lemma Extended(p: Endpoint, p': Endpoint, wp: seq<Frame>, q: Endpoint, id: Id, chunk: seq<byte>)
    requires PipeAt(p, wp, q, id) && p.Has(id) && !WriterDone(p, id)
    requires !Line(p, wp, id).ending.EndsOrderly?
    requires !(q.Has(id) && q.sess.streams[id].remoteClosed && !q.sess.streams[id].reset)
    requires p'.Written(id) == p.Written(id) + chunk
    requires Line(p', wp, id) == Then(Line(p, wp, id), Flow(chunk, StillOpen))
    ensures PipeAt(p', wp, q, id)
  {
    var line, taken := Line(p, wp, id), Taken(q, id);
    PrefixExtends(taken, p.Written(id), chunk);
    if Receptive(q, id) {
      if line.ending.StillOpen? {
        assert taken + line.bytes == p.Written(id);
        assert (taken + line.bytes) + chunk == taken + (line.bytes + chunk);
      } else {
        PrefixExtends(taken + line.bytes, p.Written(id), chunk);
      }
    }
  }

  lemma PrefixExtends(a: seq<byte>, b: seq<byte>, c: seq<byte>)
    requires a <= b
    ensures a <= b + c
  {
  }

  lemma ClosePipe(p: Endpoint, wp: seq<Frame>, q: Endpoint, op: Op, id': Id)
    requires PipeAt(p, wp, q, id') && Enabled(p, op) && (op.OpClose? || (op.OpReset? && !Orderly(op.r)))
    ensures PipeAt(Act(p, op).0, wp, q, id')
  {
    var p' := Act(p, op).0;
    var t := p'.hand[|p.hand|];
    assert p'.hand == p.hand + [t];
    StreamOpEvolves(p, op);
    LineAppend(p, p', wp, t, id');
    if id' == op.id {
      assert Line(p, wp, id').bytes + [] == Line(p, wp, id').bytes;
    } else {
      ThenNothing(Line(p, wp, id'));
      if StillWriting(p', id') {
        StillWritingBefore(p, p', id');
      }
      QuietPipe(p, wp, p', wp, q, id');
    }
  }

  /** Calls that put nothing in hand for any stream's receiver. */
  lemma IdlePipe(p: Endpoint, wp: seq<Frame>, q: Endpoint, op: Op, id: Id)
    requires PipeAt(p, wp, q, id) && EndSound(p) && Enabled(p, op)
    requires op.OpOpen? || op.OpRead? || op.OpPing? || op.OpOpenReturn? || op.OpOpenCancel? || op.OpAccept? || op.OpEnd?
    ensures PipeAt(Act(p, op).0, wp + Act(p, op).1, q, id)
  {
    var (p', out) := Act(p, op);
    ActEvolves(p, op);
    if op.OpOpen? {
      NextIdFresh(p);
    }
    IdleLine(p, wp, op, id);
    if StillWriting(p', id) {
      StillWritingBefore(p, p', id);
    }
    QuietPipe(p, wp, p', wp + out, q, id);
  }

  lemma IdleLine(p: Endpoint, wp: seq<Frame>, op: Op, id: Id)
    requires Enabled(p, op)
    requires op.OpOpen? || op.OpRead? || op.OpPing? || op.OpOpenReturn? || op.OpOpenCancel? || op.OpAccept? || op.OpEnd?
    ensures Line(Act(p, op).0, wp + Act(p, op).1, id) == Line(p, wp, id)
    ensures Act(p, op).0.Written(id) == p.Written(id)
  {
    var (p', out) := Act(p, op);
    if |p'.hand| > |p.hand| {
      var t := p'.hand[|p.hand|];
      assert p'.hand == p.hand + [t] && wp + out == wp;
      LineAppend(p, p', wp, t, id);
      ThenNothing(Line(p, wp, id));
    } else {
      assert p'.hand == p.hand;
      if out == [] {
        assert wp + out == wp;
      } else {
        FlowAppend(wp, out[0], id);
        ThenNothing(FlowOf(wp, id));
      }
    }
  }

  lemma PerformPipe(p: Endpoint, wp: seq<Frame>, q: Endpoint, k: nat, lost: bool, id: Id)
    requires PipeAt(p, wp, q, id) && EndSound(p) && SlotInv(p) && HandOrdered(p) && Enabled(p, OpPerform(k, lost))
    ensures var (p', out) := ActPerform(p, k, lost); PipeAt(p', wp + out, q, id)
  {
    var (p', out) := ActPerform(p, k, lost);
    PerformStreams(p.sess, p.hand[k], lost);
    assert CallShaped(p.hand[k]);
    if !p.hand[k].Emit? {
      assert wp + out == wp;
      HandFlowSplit(p.hand, k, id);
      HandFlowSplit(p'.hand, k, id);
      assert p'.hand[..k] == p.hand[..k] && p'.hand[k + 1..] == p.hand[k + 1..];
      QuietPipe(p, wp, p', wp + out, q, id);
    } else if lost {
      assert wp + out == wp;
      LostLine(p, k, wp, id);
      if Line(p', wp, id) == Line(p, wp, id) {
        QuietPipe(p, wp, p', wp, q, id);
      } else {
        assert Handle(p, id);
        CutPipe(p, wp, p', wp, q, id);
      }
    } else {
      assert out == [p.hand[k].frame];
      EmitLine(p, k, wp, id);
      if Line(p', wp + out, id) == Line(p, wp, id) {
        QuietPipe(p, wp, p', wp + out, q, id);
      } else {
        CutPipe(p, wp, p', wp + out, q, id);
      }
    }
  }

  lemma ReaderPipe(p: Endpoint, wp: seq<Frame>, q: Endpoint, lost: bool, id: Id)
    requires PipeAt(p, wp, q, id) && HandOrdered(p) && Enabled(p, OpReader(lost))
    ensures var (p', out) := ActReader(p, lost); PipeAt(p', wp + out, q, id)
  {
    var (p', out) := ActReader(p, lost);
    PerformStreams(p.sess, p.reader, lost);
    if out == [] {
      assert wp + out == wp;
      QuietPipe(p, wp, p', wp + out, q, id);
    } else {
      var x, w, h := FrameFlow(p.reader.frame, id), FlowOf(wp, id), HandFlow(p.hand, id);
      FlowAppend(wp, p.reader.frame, id);
      RefusalIsAbort();
      if x == NOTHING || !w.ending.StillOpen? {
        ThenNothing(w);
        QuietPipe(p, wp, p', wp + out, q, id);
      } else {
        assert w.bytes + [] == w.bytes;
        CutPipe(p, wp, p', wp + out, q, id);
      }
    }
  }

  lemma RefusalIsAbort()
    ensures !Orderly(LIMIT_STREAMS)
  {
    assert |LIMIT_STREAMS| == 22 && |REASON_OK| == 2;
  }

  lemma LocalWriterPipe(p: Endpoint, wp: seq<Frame>, q: Endpoint, wq: seq<Frame>, op: Op, id: Id)
    requires PairInv(p, wp, q, wq) && SlotInv(p) && HandOrdered(p) && PipeAt(p, wp, q, id)
    requires Enabled(p, op) && Sequential(p, op)
    ensures PipeAt(Act(p, op).0, wp + Act(p, op).1, q, id)
  {
    assert wp + [] == wp;
    match op
    case OpWrite(id0, b) => WritePipe(p, wp, q, id0, b, id);
    case OpClose(_, _) => ClosePipe(p, wp, q, op, id);
    case OpReset(_, _) => ClosePipe(p, wp, q, op, id);
    case OpPerform(k, lost) => PerformPipe(p, wp, q, k, lost, id);
    case OpReader(lost) => ReaderPipe(p, wp, q, lost, id);
    case _ => IdlePipe(p, wp, q, op, id);
  }

  /** A reader's own operations. */
  lemma LocalReaderPipe(p: Endpoint, q: Endpoint, wq: seq<Frame>, op: Op, id: Id)
    requires EndSound(p) && PipeAt(q, wq, p, id) && Enabled(p, op)
    ensures PipeAt(q, wq, Act(p, op).0, id)
  {
    var p' := Act(p, op).0;
    if op.OpOpen? {
      NextIdFresh(p);
    }
    ActEvolves(p, op);
    ActTaken(p, op, id);
    if p.Has(id) {
      assert StreamEvolves(p.sess.streams[id], p'.sess.streams[id]);
    }
    LocalClosedBefore(p, op, id);
  }

  lemma LocalClosedBefore(p: Endpoint, op: Op, id: Id)
    requires Enabled(p, op) && (op.OpOpen? ==> !p.Has(p.sess.nextID))
    ensures var p' := Act(p, op).0;
            && (p'.Has(id) && p'.sess.streams[id].remoteClosed && !p'.sess.streams[id].reset ==>
                  p.Has(id) && p.sess.streams[id].remoteClosed && !p.sess.streams[id].reset)
            && (op.OpReset? && op.id == id ==> p'.Has(id) && p'.sess.streams[id].reset)
  {
    match op
    case OpPerform(k, lost) => PerformStreams(p.sess, p.hand[k], lost);
    case OpReader(lost) => PerformStreams(p.sess, p.reader, lost);
    case _ =>
  }

  // Frames from the peer

  lemma LineHead(q: Endpoint, wq: seq<Frame>, id: Id)
    requires wq != []
    ensures Line(q, wq, id) == Then(FrameFlow(wq[0], id), Line(q, wq[1..], id))
  {
    ThenAssoc(FrameFlow(wq[0], id), FlowOf(wq[1..], id), HandFlow(q.hand, id));
  }

  /** A frame that leaves a stream's taking as it was. */
  lemma PassedOver(q: Endpoint, wq: seq<Frame>, p: Endpoint, p': Endpoint, id: Id)
    requires wq != [] && PipeAt(q, wq, p, id) && FrameFlow(wq[0], id) == NOTHING
    requires Taken(p', id) == Taken(p, id)
    requires Receptive(p', id) ==> Receptive(p, id)
    requires p'.Has(id) && p'.sess.streams[id].remoteClosed && !p'.sess.streams[id].reset ==>
               p.Has(id) && p.sess.streams[id].remoteClosed && !p.sess.streams[id].reset
    ensures PipeAt(q, wq[1..], p', id)
  {
    LineHead(q, wq, id);
    ThenNothing(Line(q, wq[1..], id));
  }

  /** Data goes to the end of a stream that is in the table and taking it. */
  lemma DataTaken(p: Endpoint, f: Frame)
    requires f.typ == STREAM_DATA && p.Has(f.id) && Receptive(p, f.id) && |f.payload| <= p.sess.cfg.maxFrame
    requires |f.payload| <= p.sess.streams[f.id].recvWindow
    ensures var p' := Arrive(p, f);
            && Taken(p', f.id) == Taken(p, f.id) + f.payload && p'.Has(f.id) && Receptive(p', f.id)
            && p'.sess.streams[f.id].remoteClosed == p.sess.streams[f.id].remoteClosed
  {
    var st := p.sess.streams[f.id];
    NoWrap(|f.payload|);
    assert Arrive(p, f).sess.streams[f.id].buf == st.buf + f.payload;
    assert p.Got(f.id) + (st.buf + f.payload) == p.Got(f.id) + st.buf + f.payload;
  }

  lemma DataDropped(p: Endpoint, f: Frame)
    requires f.typ == STREAM_DATA && p.Has(f.id) && !Receptive(p, f.id) && |f.payload| <= p.sess.cfg.maxFrame
    ensures var p' := Arrive(p, f); p'.sess.streams == p.sess.streams && p'.sess.registered == p.sess.registered
  {
    if f.id in p.sess.registered {
      assert Deliver(p.sess.streams[f.id], f.payload) == Some(p.sess.streams[f.id]);
    }
  }

  lemma DataPipe(q: Endpoint, wq: seq<Frame>, p: Endpoint, id: Id)
    requires wq != [] && PipeAt(q, wq, p, id) && wq[0].typ == STREAM_DATA && wq[0].id == id && p.Has(id)
    requires |wq[0].payload| <= p.sess.cfg.maxFrame
    requires p.sess.streams[id].Accepting() ==> |wq[0].payload| <= p.sess.streams[id].recvWindow
    ensures PipeAt(q, wq[1..], Arrive(p, wq[0]), id)
  {
    var f, p' := wq[0], Arrive(p, wq[0]);
    if Receptive(p, id) {
      LineHead(q, wq, id);
      DataTaken(p, f);
      var rest := Line(q, wq[1..], id);
      assert (Taken(p, id) + f.payload) + rest.bytes == Taken(p, id) + (f.payload + rest.bytes);
    } else {
      DataDropped(p, f);
      assert Taken(p', id) == Taken(p, id);
    }
  }

  lemma CloseFramePipe(q: Endpoint, wq: seq<Frame>, p: Endpoint, id: Id)
    requires wq != [] && PipeAt(q, wq, p, id) && wq[0].typ == CLOSE_STREAM && wq[0].id == id && p.Has(id)
    requires |wq[0].payload| <= p.sess.cfg.maxFrame
    ensures PipeAt(q, wq[1..], Arrive(p, wq[0]), id)
  {
    var f, p' := wq[0], Arrive(p, wq[0]);
    ReceiveClose(p.sess, f);
    CloseTable(p.sess, f);
    if Receptive(p, id) {
      LineHead(q, wq, id);
      assert Taken(p, id) + [] == Taken(p, id);
    }
  }

  lemma CloseTable(s: SessionState, f: Frame)
    requires f.typ == CLOSE_STREAM && |f.payload| <= s.cfg.maxFrame
    ensures Receive(s, f).0.registered == s.registered
  {
  }

  /** The streams a frame does not name, and those a frame without bytes names. */
  lemma OtherPipe(q: Endpoint, wq: seq<Frame>, p: Endpoint, id: Id)
    requires wq != [] && PipeAt(q, wq, p, id) && |wq[0].payload| <= p.sess.cfg.maxFrame
    requires wq[0].typ == OPEN_STREAM ==> !p.Has(wq[0].id)
    requires FrameFlow(wq[0], id) == NOTHING
    requires wq[0].typ != STREAM_DATA || wq[0].id != id
    requires Evolves(p, Arrive(p, wq[0]))
    ensures PipeAt(q, wq[1..], Arrive(p, wq[0]), id)
  {
    var f, p' := wq[0], Arrive(p, wq[0]);
    if f.typ == CLOSE_STREAM {
      ReceiveClose(p.sess, f);
    }
    OtherStream(p, f, id);
    if p.Has(id) {
      assert StreamEvolves(p.sess.streams[id], p'.sess.streams[id]);
    }
    PassedOver(q, wq, p, p', id);
  }

  /** A frame that is refused for its size leaves every stream with what it had taken. */
  lemma OversizedPipe(q: Endpoint, wq: seq<Frame>, p: Endpoint, id: Id)
    requires wq != [] && PipeAt(q, wq, p, id) && FrameOk(q, p, wq[0]) && !Fits(p, wq[0]) && CanReceive(p)
    requires q.sess.cfg.maxFrame == p.sess.cfg.maxFrame
    ensures PipeAt(q, wq[1..], Arrive(p, wq[0]), id)
  {
    var f, p' := wq[0], Arrive(p, wq[0]);
    Oversized(p, f);
    ShutdownUntouched(p, p', LIMIT_FRAME, true, id);
    if !p.Has(id) {
      PassedOver(q, wq, p, p', id);
    }
  }

  lemma RemoteReaderPipe(p: Endpoint, wp: seq<Frame>, q: Endpoint, wq: seq<Frame>, id: Id)
    requires Arriving(p, wp, q, wq) && PipeAt(q, wq, p, id)
    ensures PipeAt(q, wq[1..], Arrive(p, wq[0]), id)
  {
    var f := wq[0];
    assert FrameOk(q, p, f);
    ReceiveAny(p, wp, q, wq);
    if !Fits(p, f) {
      OversizedPipe(q, wq, p, id);
    } else if f.id == id && f.typ == STREAM_DATA {
      DataFits(p, wp, q, wq);
      DataPipe(q, wq, p, id);
    } else if f.id == id && f.typ == CLOSE_STREAM {
      CloseFramePipe(q, wq, p, id);
    } else {
      OtherPipe(q, wq, p, id);
    }
  }

  lemma RemoteWriterPipe(p: Endpoint, wp: seq<Frame>, q: Endpoint, wq: seq<Frame>, id: Id)
    requires Arriving(p, wp, q, wq) && PipeAt(p, wp, q, id)
    ensures PipeAt(Arrive(p, wq[0]), wp, q, id)
  {
    var p' := Arrive(p, wq[0]);
    ReceiveAny(p, wp, q, wq);
    if StillWriting(p', id) {
      StillWritingBefore(p, p', id);
    }
    QuietPipe(p, wp, p', wp, q, id);
  }

  lemma RemoteOrdered(p: Endpoint, f: Frame)
    requires HandOrdered(p)
    ensures HandOrdered(Arrive(p, f))
  {
    OrderedMovesOn(p, Arrive(p, f));
  }

  // Over every run

  ghost predicate SysPipes(sys: Sys) {
    && SysSlots(sys) && SysBytes(sys)
    && HandOrdered(sys.c) && HandOrdered(sys.s)
    && PipeInv(sys.c, sys.cs, sys.s) && PipeInv(sys.s, sys.sc, sys.c)
  }

  lemma LocalPipes(p: Endpoint, wp: seq<Frame>, q: Endpoint, wq: seq<Frame>, op: Op)
    requires PairInv(p, wp, q, wq) && SlotInv(p) && HandOrdered(p) && PipeInv(p, wp, q) && PipeInv(q, wq, p)
    requires Enabled(p, op) && Sequential(p, op)
    ensures PipeInv(Act(p, op).0, wp + Act(p, op).1, q) && PipeInv(q, wq, Act(p, op).0)
  {
    forall id: Id ensures PipeAt(Act(p, op).0, wp + Act(p, op).1, q, id) {
      LocalWriterPipe(p, wp, q, wq, op, id);
    }
    forall id: Id ensures PipeAt(q, wq, Act(p, op).0, id) {
      LocalReaderPipe(p, q, wq, op, id);
    }
  }

  lemma RemotePipes(p: Endpoint, wp: seq<Frame>, q: Endpoint, wq: seq<Frame>)
    requires Arriving(p, wp, q, wq) && PipeInv(p, wp, q) && PipeInv(q, wq, p)
    ensures PipeInv(Arrive(p, wq[0]), wp, q) && PipeInv(q, wq[1..], Arrive(p, wq[0]))
  {
    forall id: Id ensures PipeAt(Arrive(p, wq[0]), wp, q, id) {
      RemoteWriterPipe(p, wp, q, wq, id);
    }
    forall id: Id ensures PipeAt(q, wq[1..], Arrive(p, wq[0]), id) {
      RemoteReaderPipe(p, wp, q, wq, id);
    }
  }

  lemma StepPipes(sys: Sys, step: Step)
    requires SysPipes(sys) && CanStep(sys, step) && SequentialStep(sys, step)
    ensures SysPipes(Take(sys, step))
  {
    StepSlots(sys, step);
    StepBytes(sys, step);
    var p := step.p;
    var q := Other(p);
    SideInv(sys, p);
    match step
    case Local(_, op) =>
      LocalOrdered(sys.End(p), op);
      LocalPipes(sys.End(p), sys.Wire(p), sys.End(q), sys.Wire(q), op);
    case Incoming(_) =>
      RemoteOrdered(sys.End(p), sys.Wire(q)[0]);
      RemotePipes(sys.End(p), sys.Wire(p), sys.End(q), sys.Wire(q));
  }

  lemma {:induction false} RunPipes(sys: Sys, steps: seq<Step>)
    requires SysPipes(sys) && Run(sys, steps).Some? && SequentialRun(sys, steps)
    ensures SysPipes(Run(sys, steps).value)
    decreases |steps|
  {
    if steps != [] {
      StepPipes(sys, steps[0]);
      RunPipes(Take(sys, steps[0]), steps[1..]);
    }
  }

  lemma StartPipes(cfg: Config)
    requires cfg.Valid()
    ensures SysPipes(Start(cfg))
  {
    StartInv(cfg);
    var sys := Start(cfg);
    forall id: Id ensures PipeAt(sys.c, [], sys.s, id) && PipeAt(sys.s, [], sys.c, id) {
      ThenNothing(NOTHING);
    }
  }

  // What callers see

  /** The bytes read on a stream are always a prefix of the bytes written to the same stream at the other
      end; and when Read reports the end of the stream, all of them have been read and the writer has
      closed, so no more will be. */
  lemma ReadsAreAPrefix(cfg: Config, steps: seq<Step>, p: Side, id: Id)
    requires cfg.Valid() && Run(Start(cfg), steps).Some? && SequentialRun(Start(cfg), steps)
    ensures var sys := Run(Start(cfg), steps).value;
            var w, r := sys.End(p), sys.End(Other(p));
            && r.Got(id) <= w.Written(id)
            && (r.Has(id) && (exists max | max > 0 :: Read(r.sess.streams[id], max, r.sess.cfg.Threshold()).0.ReadEof?) ==>
                  r.Got(id) == w.Written(id) && w.Has(id) && w.sess.streams[id].localClosed)
  {
    StartPipes(cfg);
    RunPipes(Start(cfg), steps);
    var sys := Run(Start(cfg), steps).value;
    SideInv(sys, Other(p));
    PrefixAt(sys.End(p), sys.Wire(p), sys.End(Other(p)), id);
  }

  lemma PrefixAt(w: Endpoint, wire: seq<Frame>, r: Endpoint, id: Id)
    requires PipeInv(w, wire, r) && StreamsKnown(r, w)
    ensures r.Got(id) <= w.Written(id)
    ensures r.Has(id) && (exists max | max > 0 :: Read(r.sess.streams[id], max, r.sess.cfg.Threshold()).0.ReadEof?) ==>
              r.Got(id) == w.Written(id) && w.Has(id) && w.sess.streams[id].localClosed
  {
    assert PipeAt(w, wire, r, id);
    assert r.Got(id) <= Taken(r, id);
    if r.Has(id) && exists max | max > 0 :: Read(r.sess.streams[id], max, r.sess.cfg.Threshold()).0.ReadEof? {
      assert StreamKnown(r, w, id);
      assert Taken(r, id) == r.Got(id);
    }
  }

  /** With sequential writers nothing ever comes late, so the seven terms of credit conservation alone make
      up the window. */
  lemma NothingComesLate(cfg: Config, steps: seq<Step>, p: Side, id: Id)
    requires cfg.Valid() && Run(Start(cfg), steps).Some? && SequentialRun(Start(cfg), steps)
    requires var sys := Run(Start(cfg), steps).value;
             id in sys.End(p).sess.registered && id in sys.End(Other(p)).sess.registered
             && sys.End(Other(p)).Has(id) && !sys.End(Other(p)).sess.streams[id].reset
    ensures Run(Start(cfg), steps).value.End(Other(p)).Late(id) == 0
  {
    StartPipes(cfg);
    RunPipes(Start(cfg), steps);
    var sys := Run(Start(cfg), steps).value;
    SideInv(sys, p);
    OnTime(sys.End(p), sys.Wire(p), sys.End(Other(p)), id);
  }

  lemma OnTime(w: Endpoint, wire: seq<Frame>, r: Endpoint, id: Id)
    requires PipeInv(w, wire, r) && ByteBalance(w, wire, r) && LateSound(r) && Intact(w, r, id)
    ensures r.Late(id) == 0
  {
    assert PipeAt(w, wire, r, id);
    assert |w.Written(id)| == |Taken(r, id)| + InFlight(DataBytes, w, wire, id) + r.Late(id);
  }

  // Refinement

  /** One direction of one stream, as its users see it. */
  datatype Pipe = Pipe(written: seq<byte>, read: seq<byte>, closed: bool)

  function PipeOf(sys: Sys, p: Side, id: Id): Pipe {
    Pipe(sys.End(p).Written(id), sys.End(Other(p)).Got(id), Closed(sys.End(p), id))
  }

  predicate Closed(e: Endpoint, id: Id) {
    e.Has(id) && e.sess.streams[id].localClosed
  }

  predicate Writes(step: Step, p: Side, id: Id) {
    step.Local? && step.p == p && step.op.OpWrite? && step.op.id == id
  }

  predicate Reads(step: Step, p: Side, id: Id) {
    step.Local? && step.p == p && step.op.OpRead? && step.op.id == id
  }

  /** What can end the writing at an end: its own close, abort or end of session, or a frame that ends the
      session. */
  predicate MayClose(step: Step, p: Side, id: Id) {
    step.p == p &&
    (step.Incoming? || step.op.OpEnd? || (step.op.OpClose? && step.op.id == id) || (step.op.OpReset? && step.op.id == id))
  }

  /** Whether a step is a Read that reports the end of the stream. */
  predicate SeesEnd(sys: Sys, step: Step, p: Side, id: Id) {
    var r := sys.End(p);
    Reads(step, p, id) && r.Has(id) && Read(r.sess.streams[id], step.op.max, r.sess.cfg.Threshold()).0.ReadEof?
  }

  /** What a step of the connection may do to a pipe: append what its writer writes while it is open, close it
      for good, or hand its reader the next bytes in order; no other step touches it. The end of the stream is
      reported only of a closed pipe of which everything has been read. */
  predicate PipeStep(a: Pipe, b: Pipe, step: Step, p: Side, id: Id, seesEnd: bool) {
    && (if Writes(step, p, id) then
          !a.closed && !b.closed && b.read == a.read && a.written < b.written && b.written <= a.written + step.op.p
        else if Reads(step, Other(p), id) then
          && b.written == a.written && b.closed == a.closed
          && a.read <= b.read && b.read <= b.written && |b.read| <= |a.read| + step.op.max
        else
          b.written == a.written && b.read == a.read)
    && (a.closed ==> b.closed)
    && (b.closed && !a.closed ==> MayClose(step, p, id))
    && (seesEnd ==> b == a && a.closed && a.read == a.written)
  }

  /** Every step of every sequential run is, on every stream and in both directions, a step of an
      independent FIFO pipe. */
  lemma RefinesPipes(cfg: Config, steps: seq<Step>, step: Step, p: Side, id: Id)
    requires cfg.Valid() && Run(Start(cfg), steps).Some? && SequentialRun(Start(cfg), steps)
    requires var sys := Run(Start(cfg), steps).value; CanStep(sys, step) && SequentialStep(sys, step)
    ensures var sys := Run(Start(cfg), steps).value;
            PipeStep(PipeOf(sys, p, id), PipeOf(Take(sys, step), p, id), step, p, id, SeesEnd(sys, step, Other(p), id))
  {
    StartPipes(cfg);
    RunPipes(Start(cfg), steps);
    var sys := Run(Start(cfg), steps).value;
    StepPipes(sys, step);
    PipesPrefix(sys, p, id);
    PipesPrefix(Take(sys, step), p, id);
    StepIsPipeStep(sys, step, p, id);
  }

  /** What is read is a prefix of what is written, and the end is in sight only when it is all of it. */
  ghost predicate PrefixKept(sys: Sys, p: Side, id: Id) {
    var w, r := sys.End(p), sys.End(Other(p));
    && r.Got(id) <= w.Written(id)
    && (r.Has(id) && (exists max | max > 0 :: Read(r.sess.streams[id], max, r.sess.cfg.Threshold()).0.ReadEof?) ==>
          r.Got(id) == w.Written(id) && Closed(w, id))
  }

  lemma PipesPrefix(sys: Sys, p: Side, id: Id)
    requires SysInv(sys) && PipeInv(sys.End(p), sys.Wire(p), sys.End(Other(p)))
    ensures PrefixKept(sys, p, id)
  {
    SideInv(sys, Other(p));
    PrefixAt(sys.End(p), sys.Wire(p), sys.End(Other(p)), id);
  }

  lemma StepIsPipeStep(sys: Sys, step: Step, p: Side, id: Id)
    requires SysInv(sys) && CanStep(sys, step) && PrefixKept(sys, p, id) && PrefixKept(Take(sys, step), p, id)
    ensures PipeStep(PipeOf(sys, p, id), PipeOf(Take(sys, step), p, id), step, p, id, SeesEnd(sys, step, Other(p), id))
  {
    FrameSizes(sys);
    BytesArePipeStep(sys, step, p, id);
    CloseIsPipeStep(sys, step, p, id);
    if SeesEnd(sys, step, Other(p), id) {
      EndChangesNothing(sys, step, p, id);
    }
  }

  lemma FrameSizes(sys: Sys)
    requires SysInv(sys)
    ensures sys.c.sess.cfg.maxFrame > 0 && sys.s.sess.cfg.maxFrame > 0
  {
    SideInv(sys, Client);
  }

  lemma BytesArePipeStep(sys: Sys, step: Step, p: Side, id: Id)
    requires CanStep(sys, step) && sys.c.sess.cfg.maxFrame > 0 && sys.s.sess.cfg.maxFrame > 0
    requires PipeOf(Take(sys, step), p, id).read <= PipeOf(Take(sys, step), p, id).written
    ensures var a, b := PipeOf(sys, p, id), PipeOf(Take(sys, step), p, id);
            if Writes(step, p, id) then
              b.read == a.read && a.written < b.written && b.written <= a.written + step.op.p
            else if Reads(step, Other(p), id) then
              b.written == a.written && a.read <= b.read && b.read <= b.written && |b.read| <= |a.read| + step.op.max
            else
              b.written == a.written && b.read == a.read
  {
    if step.Local? {
      WrittenGrows(sys.End(step.p), step.op, id);
      GotGrows(sys.End(step.p), step.op, id);
    }
  }

  /** Closing is for good, comes only from the writer's own end, and ends the writing. */
  lemma CloseIsPipeStep(sys: Sys, step: Step, p: Side, id: Id)
    requires SysInv(sys) && CanStep(sys, step)
    ensures var a, b := PipeOf(sys, p, id), PipeOf(Take(sys, step), p, id);
            && (a.closed ==> b.closed) && (b.closed && !a.closed ==> MayClose(step, p, id))
            && (Writes(step, p, id) ==> !a.closed && !b.closed)
  {
    SideInv(sys, p);
    if step.p == p {
      match step {
        case Local(_, op) =>
          ActEvolves(sys.End(p), op);
          ActCloses(sys.End(p), op, id);
        case Incoming(_) => ReceiveAny(sys.End(p), sys.Wire(p), sys.End(Other(p)), sys.Wire(Other(p)));
      }
      assert sys.End(p).Has(id) ==>
          StreamEvolves(sys.End(p).sess.streams[id], Take(sys, step).End(p).sess.streams[id]);
    }
  }

  lemma ActCloses(e: Endpoint, op: Op, id: Id)
    requires Enabled(e, op)
    ensures Closed(Act(e, op).0, id) && !Closed(e, id) ==>
              op.OpEnd? || (op.OpClose? && op.id == id) || (op.OpReset? && op.id == id)
    ensures op.OpWrite? && op.id == id ==> !Closed(e, id) && !Closed(Act(e, op).0, id)
  {
    match op
    case OpPerform(k, lost) => PerformStreams(e.sess, e.hand[k], lost);
    case OpReader(lost) => PerformStreams(e.sess, e.reader, lost);
    case _ =>
  }

  lemma EndChangesNothing(sys: Sys, step: Step, p: Side, id: Id)
    requires CanStep(sys, step) && SeesEnd(sys, step, Other(p), id)
    ensures PipeOf(Take(sys, step), p, id) == PipeOf(sys, p, id)
  {
  }

  lemma WrittenGrows(e: Endpoint, op: Op, id: Id)
    requires Enabled(e, op) && e.sess.cfg.maxFrame > 0
    ensures var e' := Act(e, op).0;
            if op.OpWrite? && op.id == id then
              e.Written(id) < e'.Written(id) && e'.Written(id) <= e.Written(id) + op.p
            else
              e'.Written(id) == e.Written(id)
  {
    if op.OpWrite? {
      WriteRoundSendsSomething(e.sess.streams[op.id], |op.p|, e.sess.cfg.maxFrame);
    }
  }

  lemma GotGrows(e: Endpoint, op: Op, id: Id)
    requires Enabled(e, op)
    ensures var e' := Act(e, op).0;
            if op.OpRead? && op.id == id then
              e.Got(id) <= e'.Got(id) && |e'.Got(id)| <= |e.Got(id)| + op.max
            else
              e'.Got(id) == e.Got(id)
  {
  }
}
