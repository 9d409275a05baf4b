/** Conservation, absence of faults and absence of stalls, over every run of two sessions. */
module MuxTheorems {
  import opened Bytes
  import opened Frames
  import opened StreamModel
  import opened SessionModel
  import opened MuxSystem
  import opened MuxFlow
  import opened MuxInvariant
  import opened MuxLocal
  import opened MuxRemote

  ghost predicate SysInv(sys: Sys) {
    PairInv(sys.c, sys.cs, sys.s, sys.sc)
  }

  lemma SideInv(sys: Sys, p: Side)
    requires SysInv(sys)
    ensures PairInv(sys.End(p), sys.Wire(p), sys.End(Other(p)), sys.Wire(Other(p)))
  {
  }

  lemma StartInv(cfg: Config)
    requires cfg.Valid()
    ensures SysInv(Start(cfg))
  {
    var sys := Start(cfg);
    assert forall id: Id :: Total(sys.c, [], sys.s, [], id) == cfg.window;
    assert forall id: Id :: Total(sys.s, [], sys.c, [], id) == cfg.window;
  }

  lemma StepInv(sys: Sys, step: Step)
    requires SysInv(sys) && CanStep(sys, step)
    ensures SysInv(Take(sys, step))
  {
    var p := step.p;
    var q := Other(p);
    SideInv(sys, p);
    match step
    case Local(_, op) => LocalStep(sys.End(p), sys.Wire(p), sys.End(q), sys.Wire(q), op);
    case Incoming(_) => ArriveStep(sys.End(p), sys.Wire(p), sys.End(q), sys.Wire(q));
  }

  lemma {:induction false} RunInv(sys: Sys, steps: seq<Step>)
    requires SysInv(sys) && Run(sys, steps).Some?
    ensures SysInv(Run(sys, steps).value)
    decreases |steps|
  {
    if steps != [] {
      StepInv(sys, steps[0]);
      RunInv(Take(sys, steps[0]), steps[1..]);
    }
  }

  /** Every state a pair can reach satisfies the invariant. */
  lemma ReachableInv(cfg: Config, steps: seq<Step>)
    requires cfg.Valid() && Run(Start(cfg), steps).Some?
    ensures SysInv(Run(Start(cfg), steps).value)
    ensures Run(Start(cfg), steps).value.c.sess.cfg == cfg.(isClient := true)
  {
    StartInv(cfg);
    RunInv(Start(cfg), steps);
    RunKeepsConfig(Start(cfg), steps);
  }

  lemma {:induction false} RunKeepsConfig(sys: Sys, steps: seq<Step>)
    requires SysInv(sys) && Run(sys, steps).Some?
    ensures Run(sys, steps).value.c.sess.cfg == sys.c.sess.cfg
    decreases |steps|
  {
    if steps != [] {
      var step := steps[0];
      StepInv(sys, step);
      var p := step.p;
      SideInv(sys, p);
      match step {
        case Local(_, op) => ActEvolves(sys.End(p), op);
        case Incoming(_) => ReceiveAny(sys.End(p), sys.Wire(p), sys.End(Other(p)), sys.Wire(Other(p)));
      }
      RunKeepsConfig(Take(sys, step), steps[1..]);
    }
  }

  /** Where the credit of one direction of a stream is: the writer's window, the bytes debited and not yet
      sent, the data in flight, the unread bytes, the batched credit, the credit taken and not yet sent,
      and the credit in flight. */
  function CreditSum(sys: Sys, p: Side, id: Id): nat {
    var w, r := sys.End(p), sys.End(Other(p));
    SendWindow(w, id)
    + (InHand(DataBytes, w.hand, id) + InTask(DataBytes, w.reader, id))
    + InFrames(DataBytes, sys.Wire(p), id)
    + Unread(r, id)
    + Batched(r, id)
    + (InHand(CreditUnits, r.hand, id) + InTask(CreditUnits, r.reader, id))
    + InFrames(CreditUnits, sys.Wire(Other(p)), id)
  }

  /** Credit is conserved. In every reachable state, for either direction of a stream in both tables that
      the reader has not aborted, the parts of the sum and the bytes that came too late, after the close,
      add up to the initial window. In every reachable state they never exceed it, and nothing is late
      before the peer's close arrives. */
  lemma CreditConserved(cfg: Config, steps: seq<Step>, p: Side, id: Id)
    requires cfg.Valid() && Run(Start(cfg), steps).Some?
    ensures var sys := Run(Start(cfg), steps).value;
            var w, r := sys.End(p), sys.End(Other(p));
            && CreditSum(sys, p, id) + r.Late(id) <= cfg.window
            && (id in w.sess.registered && id in r.sess.registered && r.Has(id) && !r.sess.streams[id].reset ==>
                  CreditSum(sys, p, id) + r.Late(id) == cfg.window)
            && (r.Late(id) > 0 ==> r.Has(id) && r.sess.streams[id].remoteClosed)
  {
    ReachableInv(cfg, steps);
    var sys := Run(Start(cfg), steps).value;
    SideInv(sys, p);
    var q := Other(p);
    assert Total(sys.End(p), sys.Wire(p), sys.End(q), sys.Wire(q), id) <= cfg.window;
    assert Intact(sys.End(p), sys.End(q), id) ==>
        Total(sys.End(p), sys.Wire(p), sys.End(q), sys.Wire(q), id) == cfg.window;
  }

  /** No stall. A writer that is waiting for credit on a stream in both tables and not aborted by the
      reader is owed something: data or credit is under way, or the reader has unread bytes. At rest the
      writer has all of the window but what the reader batches, which is less than the threshold. */
  lemma NoStall(cfg: Config, steps: seq<Step>, p: Side, id: Id)
    requires cfg.Valid() && Run(Start(cfg), steps).Some?
    requires var sys := Run(Start(cfg), steps).value;
             var w, r := sys.End(p), sys.End(Other(p));
             && id in w.sess.registered && id in r.sess.registered && w.Has(id) && r.Has(id)
             && !w.sess.streams[id].localClosed && !r.sess.streams[id].reset
    ensures var sys := Run(Start(cfg), steps).value;
            var w, r := sys.End(p), sys.End(Other(p));
            var underWay := InFlight(DataBytes, w, sys.Wire(p), id) + InFlight(CreditUnits, r, sys.Wire(Other(p)), id);
            && (w.sess.streams[id].sendWindow == 0 ==> underWay > 0 || r.sess.streams[id].buf != [])
            && (underWay == 0 && r.sess.streams[id].buf == [] ==>
                  w.sess.streams[id].sendWindow > cfg.window - cfg.Threshold())
  {
    ReachableInv(cfg, steps);
    var sys := Run(Start(cfg), steps).value;
    SideInv(sys, p);
    var q := Other(p);
    var w, r := sys.End(p), sys.End(q);
    assert StreamKnown(r, w, id);
    assert Intact(w, r, id);
    assert Total(w, sys.Wire(p), r, sys.Wire(q), id) == cfg.window;
    assert Bounded(r.sess.streams[id], cfg.window, r.sess.cfg.Threshold());
  }

  // Faults

  /** Whether an end's session was ended by a protocol fault. */
  predicate Failed(e: Endpoint) {
    e.sess.standing.Over? && e.sess.standing.fault
  }

  /** In every reachable state, the next frame faults the session that takes it in exactly if it is larger
      than agreed. */
  lemma FaultsExactlyOnSize(cfg: Config, steps: seq<Step>, p: Side)
    requires cfg.Valid() && Run(Start(cfg), steps).Some?
    requires CanStep(Run(Start(cfg), steps).value, Incoming(p))
    ensures var sys := Run(Start(cfg), steps).value;
            Failed(Take(sys, Incoming(p)).End(p)) <==> |sys.Wire(Other(p))[0].payload| > sys.End(p).sess.cfg.maxFrame
  {
    ReachableInv(cfg, steps);
    var sys := Run(Start(cfg), steps).value;
    SideInv(sys, p);
    var q := Other(p);
    var f := sys.Wire(q)[0];
    assert FrameOk(sys.End(q), sys.End(p), f);
    ReceiveAny(sys.End(p), sys.Wire(p), sys.End(q), sys.Wire(q));
    if !Fits(sys.End(p), f) {
      Oversized(sys.End(p), f);
    }
  }

  /** What a run without faults may be started with: limits the handshake admits, and frames large enough
      for a refusal. */
  predicate Workable(cfg: Config) {
    cfg.Valid() && cfg.maxFrame >= |LIMIT_STREAMS|
  }

  /** Callers keep payloads and reasons within the agreed frame size. */
  predicate Modest(max: nat, step: Step) {
    step.Local? ==>
      match step.op
      case OpOpen(payload) => |payload| <= max
      case OpClose(_, r) => |r| <= max
      case OpReset(_, r) => |r| <= max
      case OpEnd(_, r) => |r| <= max
      case _ => true
  }

  predicate AllModest(max: nat, steps: seq<Step>) {
    forall i | 0 <= i < |steps| :: Modest(max, steps[i])
  }

  predicate TaskFits(max: nat, t: Task) {
    t.Emit? ==> |t.frame.payload| <= max && TaskFits(max, t.next)
  }

  /** Everything under way from an end fits the agreed frame size, and it has not failed. */
  predicate AllFits(max: nat, e: Endpoint, wire: seq<Frame>) {
    && e.sess.cfg.maxFrame == max && !Failed(e)
    && (forall i | 0 <= i < |wire| :: |wire[i].payload| <= max)
    && (forall k | 0 <= k < |e.hand| :: TaskFits(max, e.hand[k]))
    && TaskFits(max, e.reader)
  }

  lemma PerformFits(max: nat, s: SessionState, t: Task, lost: bool)
    requires TaskFits(max, t) && max >= |LIMIT_STREAMS|
    ensures var (s', t', out) := Perform(s, t, lost);
            && TaskFits(max, t') && s'.standing == s.standing && s'.cfg == s.cfg
            && forall i | 0 <= i < |out| :: |out[i].payload| <= max
  {
  }

  lemma ReadFits(max: nat, e: Endpoint, wire: seq<Frame>, op: Op)
    requires AllFits(max, e, wire) && Enabled(e, op) && op.OpRead? && max >= |LIMIT_STREAMS|
    ensures AllFits(max, Act(e, op).0, wire)
  {
    assert |LIMIT_STREAMS| == 22;
    var e' := Act(e, op).0;
    if |e'.hand| > |e.hand| {
      Widths();
      assert TaskFits(max, e'.hand[|e.hand|]);
    }
  }

  /** Calls that take one frame in hand. */
  lemma CallFits(max: nat, p: Side, e: Endpoint, wire: seq<Frame>, op: Op)
    requires AllFits(max, e, wire) && Enabled(e, op) && Modest(max, Local(p, op))
    requires op.OpOpen? || op.OpClose? || op.OpReset? || op.OpPing?
    ensures AllFits(max, Act(e, op).0, wire)
  {
    var e' := Act(e, op).0;
    assert e'.hand == e.hand + [e'.hand[|e.hand|]] && TaskFits(max, e'.hand[|e.hand|]);
  }

  lemma ActFits(max: nat, p: Side, e: Endpoint, wire: seq<Frame>, op: Op)
    requires AllFits(max, e, wire) && Enabled(e, op) && Modest(max, Local(p, op)) && max >= |LIMIT_STREAMS|
    ensures AllFits(max, Act(e, op).0, wire + Act(e, op).1)
  {
    assert wire + [] == wire;
    match op
    case OpRead(_, _) => ReadFits(max, e, wire, op);
    case OpWrite(id, b) => WriteRoundSendsSomething(e.sess.streams[id], |b|, max);
    case OpPerform(k, lost) => PerformFits(max, e.sess, e.hand[k], lost);
    case OpReader(lost) => PerformFits(max, e.sess, e.reader, lost);
    case OpOpenReturn(_) =>
    case OpOpenCancel(_) =>
    case OpAccept =>
    case OpEnd(_, _) =>
    case _ => CallFits(max, p, e, wire, op);
  }

  lemma ArriveFits(p: Endpoint, wp: seq<Frame>, q: Endpoint, wq: seq<Frame>, max: nat)
    requires Arriving(p, wp, q, wq) && AllFits(max, p, wp) && AllFits(max, q, wq) && max >= |LIMIT_STREAMS|
    ensures AllFits(max, Arrive(p, wq[0]), wp) && AllFits(max, q, wq[1..])
  {
    ReceiveAny(p, wp, q, wq);
    AnswerFits(p.sess, wq[0], max);
  }

  /** What the reader answers with is a refusal, or no larger than what it answers. */
  lemma AnswerFits(s: SessionState, f: Frame, max: nat)
    requires |f.payload| <= max && max >= |LIMIT_STREAMS|
    ensures TaskFits(max, Receive(s, f).1)
  {
  }

  lemma {:induction false} RunFits(max: nat, sys: Sys, steps: seq<Step>)
    requires SysInv(sys) && AllFits(max, sys.c, sys.cs) && AllFits(max, sys.s, sys.sc) && max >= |LIMIT_STREAMS|
    requires Run(sys, steps).Some? && AllModest(max, steps)
    ensures var end := Run(sys, steps).value; AllFits(max, end.c, end.cs) && AllFits(max, end.s, end.sc)
    decreases |steps|
  {
    if steps != [] {
      var step := steps[0];
      var p := step.p;
      var q := Other(p);
      SideInv(sys, p);
      match step {
        case Local(_, op) => ActFits(max, p, sys.End(p), sys.Wire(p), op);
        case Incoming(_) => ArriveFits(sys.End(p), sys.Wire(p), sys.End(q), sys.Wire(q), max);
      }
      StepInv(sys, step);
      RunFits(max, Take(sys, step), steps[1..]);
    }
  }

  /** Two conforming sessions whose callers keep to the agreed frame size never end each other on a protocol
      fault. */
  lemma NoFault(cfg: Config, steps: seq<Step>, p: Side)
    requires Workable(cfg) && Run(Start(cfg), steps).Some? && AllModest(cfg.maxFrame, steps)
    ensures !Failed(Run(Start(cfg), steps).value.End(p))
  {
    StartInv(cfg);
    RunFits(cfg.maxFrame, Start(cfg), steps);
  }
}
