/** How much of each thing is under way on one end's side of the connection, and what its own
    operations and its reader do to those amounts. */
module MuxFlow {
  import opened Bytes
  import opened Frames
  import opened StreamModel
  import opened SessionModel
  import opened MuxSystem

  datatype Kind = DataBytes | CreditUnits | Openings

  /** What a frame carries for one stream. */
  function Amount(kind: Kind, f: Frame, id: Id): nat {
    if f.id != id then 0
    else
      match kind
      case DataBytes => if f.typ == STREAM_DATA then |f.payload| else 0
      case CreditUnits => if f.typ == STREAM_WINDOW && |f.payload| == 4 then Uint32At(f.payload) else 0
      case Openings => if f.typ == OPEN_STREAM then 1 else 0
  }

  function InFrames(kind: Kind, frames: seq<Frame>, id: Id): nat {
    if frames == [] then 0 else Amount(kind, frames[0], id) + InFrames(kind, frames[1..], id)
  }

  function InTask(kind: Kind, t: Task, id: Id): nat {
    if t.Emit? then Amount(kind, t.frame, id) + InTask(kind, t.next, id) else 0
  }

  function InHand(kind: Kind, tasks: seq<Task>, id: Id): nat {
    if tasks == [] then 0
    else InHand(kind, tasks[..|tasks| - 1], id) + InTask(kind, tasks[|tasks| - 1], id)
  }

  /** On the wire, in hand, or with the reader. */
  function InFlight(kind: Kind, e: Endpoint, wire: seq<Frame>, id: Id): nat {
    InFrames(kind, wire, id) + InHand(kind, e.hand, id) + InTask(kind, e.reader, id)
  }

  function SendWindow(e: Endpoint, id: Id): nat {
    if e.Has(id) then e.sess.streams[id].sendWindow else e.sess.cfg.window
  }

  function Unread(e: Endpoint, id: Id): nat {
    if e.Has(id) then |e.sess.streams[id].buf| else 0
  }

  function Batched(e: Endpoint, id: Id): nat {
    if e.Has(id) then e.sess.streams[id].pendingCredit else 0
  }

  /** The writing end's share of a direction's window: credit left, and data debited or on its way. */
  function WriterSide(e: Endpoint, wire: seq<Frame>, id: Id): nat {
    SendWindow(e, id) + InFlight(DataBytes, e, wire, id)
  }

  /** The reading end's share: unread bytes, credit batched, taken, or on its way back, and bytes dropped
      because they came after the close. */
  function ReaderSide(e: Endpoint, wire: seq<Frame>, id: Id): nat {
    Unread(e, id) + Batched(e, id) + InFlight(CreditUnits, e, wire, id) + e.Late(id)
  }

  // Counting

  lemma {:induction false} InFramesConcat(kind: Kind, a: seq<Frame>, b: seq<Frame>, id: Id)
    ensures InFrames(kind, a + b, id) == InFrames(kind, a, id) + InFrames(kind, b, id)
  {
    if a == [] {
      assert a + b == b;
    } else {
      assert (a + b)[1..] == a[1..] + b;
      InFramesConcat(kind, a[1..], b, id);
    }
  }

  lemma InFramesOne(kind: Kind, a: seq<Frame>, f: Frame, id: Id)
    ensures InFrames(kind, a + [f], id) == InFrames(kind, a, id) + Amount(kind, f, id)
  {
    InFramesConcat(kind, a, [f], id);
    assert [f][1..] == [];
  }

  lemma InHandAppend(kind: Kind, tasks: seq<Task>, t: Task, id: Id)
    ensures InHand(kind, tasks + [t], id) == InHand(kind, tasks, id) + InTask(kind, t, id)
  {
    assert (tasks + [t])[..|tasks|] == tasks;
  }

  lemma {:induction false} InHandUpdate(kind: Kind, tasks: seq<Task>, k: nat, t: Task, id: Id)
    requires k < |tasks|
    ensures InHand(kind, tasks[k := t], id) + InTask(kind, tasks[k], id) ==
            InHand(kind, tasks, id) + InTask(kind, t, id)
  {
    var n := |tasks| - 1;
    if k == n {
      assert tasks[k := t][..n] == tasks[..n];
    } else {
      assert tasks[k := t][..n] == tasks[..n][k := t];
      InHandUpdate(kind, tasks[..n], k, t, id);
    }
  }

  /** A frame that is counted somewhere makes the count positive. */
  lemma {:induction false} InFramesPositive(kind: Kind, frames: seq<Frame>, i: nat, id: Id)
    requires i < |frames| && Amount(kind, frames[i], id) > 0
    ensures InFrames(kind, frames, id) > 0
  {
    if i > 0 {
      InFramesPositive(kind, frames[1..], i - 1, id);
    }
  }

  lemma {:induction false} InHandPositive(kind: Kind, tasks: seq<Task>, i: nat, id: Id)
    requires i < |tasks| && InTask(kind, tasks[i], id) > 0
    ensures InHand(kind, tasks, id) > 0
  {
    if i < |tasks| - 1 {
      InHandPositive(kind, tasks[..|tasks| - 1], i, id);
    }
  }

  // What an end's own operations do to its shares

  /** Taking up new work leaves everything else in flight as it was. */
  lemma InFlightAppend(kind: Kind, e: Endpoint, e': Endpoint, wire: seq<Frame>, t: Task, id: Id)
    requires e'.hand == e.hand + [t] && e'.reader == e.reader
    ensures InFlight(kind, e', wire, id) == InFlight(kind, e, wire, id) + InTask(kind, t, id)
  {
    InHandAppend(kind, e.hand, t, id);
  }

  /** What the frame a task is about to write carries. */
  function InFront(kind: Kind, t: Task, id: Id): nat {
    if t.Emit? then Amount(kind, t.frame, id) else 0
  }

  /** Performing a task moves a frame from hand to wire, or loses it. */
  lemma PerformInFlight(kind: Kind, s: SessionState, t: Task, lost: bool, wire: seq<Frame>, id: Id)
    ensures var (_, t', out) := Perform(s, t, lost);
            InFrames(kind, wire + out, id) + InTask(kind, t', id) + (if lost then InFront(kind, t, id) else 0) ==
            InFrames(kind, wire, id) + InTask(kind, t, id)
  {
    var (_, t', out) := Perform(s, t, lost);
    if t.Emit? && !lost {
      InFramesOne(kind, wire, t.frame, id);
    } else {
      PerformSilent(kind, s, t, lost, id);
      assert wire + [] == wire;
    }
  }

  lemma PerformSilent(kind: Kind, s: SessionState, t: Task, lost: bool, id: Id)
    requires t.Emit? ==> lost
    ensures var (_, t', out) := Perform(s, t, lost);
            out == [] && InTask(kind, t', id) + (if lost then InFront(kind, t, id) else 0) == InTask(kind, t, id)
  {
    if t.Enqueue? {
      assert InTask(kind, Emit(CloseFrame(t.id, LIMIT_STREAMS), Done), id) == 0;
    }
  }

  /** Performing a task leaves every stream as it was. */
  lemma PerformStreams(s: SessionState, t: Task, lost: bool)
    ensures Perform(s, t, lost).0.streams == s.streams
    ensures Perform(s, t, lost).0.cfg == s.cfg
  {
  }

  lemma ActPerformInFlight(kind: Kind, e: Endpoint, k: nat, lost: bool, wire: seq<Frame>, id: Id)
    requires k < |e.hand|
    ensures var (e', out) := ActPerform(e, k, lost);
            InFlight(kind, e', wire + out, id) + (if lost then InFront(kind, e.hand[k], id) else 0) ==
            InFlight(kind, e, wire, id)
  {
    var (s, t, out) := Perform(e.sess, e.hand[k], lost);
    PerformInFlight(kind, e.sess, e.hand[k], lost, wire, id);
    InHandUpdate(kind, e.hand, k, t, id);
  }

  lemma ActReaderInFlight(kind: Kind, e: Endpoint, lost: bool, wire: seq<Frame>, id: Id)
    ensures var (e', out) := ActReader(e, lost);
            InFlight(kind, e', wire + out, id) + (if lost then InFront(kind, e.reader, id) else 0) ==
            InFlight(kind, e, wire, id)
  {
    PerformInFlight(kind, e.sess, e.reader, lost, wire, id);
  }

  /** Credit in a window frame is the credit it was made with. */
  lemma WindowAmount(id: Id, credit: uint32, id': Id)
    ensures Amount(CreditUnits, WindowFrame(id, credit), id') == if id == id' then credit else 0
  {
    Widths();
    ReadsWhatWasWritten(4, credit);
  }

  lemma ActWriteShares(e: Endpoint, id: Id, p: seq<byte>, wire: seq<Frame>, id': Id)
    requires id in e.sess.streams && 0 < |p| < TWO_32 && e.sess.cfg.maxFrame > 0
    requires Write(e.sess.streams[id], |p|, e.sess.cfg.maxFrame).0.WriteChunk?
    ensures var e' := ActWrite(e, id, p);
            && WriterSide(e', wire, id') == WriterSide(e, wire, id')
            && ReaderSide(e', wire, id') == ReaderSide(e, wire, id')
            && InFlight(Openings, e', wire, id') == InFlight(Openings, e, wire, id')
  {
    var e' := ActWrite(e, id, p);
    var t := e'.hand[|e.hand|];
    WriteRoundSendsSomething(e.sess.streams[id], |p|, e.sess.cfg.maxFrame);
    InFlightAppend(DataBytes, e, e', wire, t, id');
    InFlightAppend(CreditUnits, e, e', wire, t, id');
    InFlightAppend(Openings, e, e', wire, t, id');
  }

  lemma ActReadShares(e: Endpoint, id: Id, max: nat, wire: seq<Frame>, id': Id)
    requires id in e.sess.streams && max > 0
    requires Bounded(e.sess.streams[id], e.sess.cfg.window, e.sess.cfg.Threshold())
    requires Unread(e, id) + Batched(e, id) < TWO_32
    ensures var e' := ActRead(e, id, max);
            && WriterSide(e', wire, id') == WriterSide(e, wire, id')
            && ReaderSide(e', wire, id') == ReaderSide(e, wire, id')
            && InFlight(Openings, e', wire, id') == InFlight(Openings, e, wire, id')
  {
    var (r, st) := Read(e.sess.streams[id], max, e.sess.cfg.Threshold());
    if r.ReadGot? {
      ReadConserves(e.sess.streams[id], max, e.sess.cfg.window, e.sess.cfg.Threshold());
      ReadKeepsSendWindow(e.sess.streams[id], max, e.sess.cfg.Threshold());
      ReadSettles(e, ActRead(e, id, max), id, st, r.credit, wire, id');
    }
  }

  lemma ReadKeepsSendWindow(s: StreamState, max: nat, threshold: uint32)
    ensures Read(s, max, threshold).1.sendWindow == s.sendWindow
  {
  }

  /** What reading leaves on an end's books, given that the stream itself lost nothing. */
  lemma ReadSettles(e: Endpoint, e': Endpoint, id: Id, st: StreamState, credit: uint32, wire: seq<Frame>, id': Id)
    requires id in e.sess.streams && st.sendWindow == e.sess.streams[id].sendWindow
    requires |st.buf| + st.pendingCredit + credit == Unread(e, id) + Batched(e, id)
    requires e'.sess == SetStream(e.sess, id, st) && e'.reader == e.reader && e'.late == e.late
    requires e'.hand == e.hand + (if credit > 0 then [Emit(WindowFrame(id, credit), Done)] else [])
    ensures WriterSide(e', wire, id') == WriterSide(e, wire, id')
    ensures ReaderSide(e', wire, id') == ReaderSide(e, wire, id')
    ensures InFlight(Openings, e', wire, id') == InFlight(Openings, e, wire, id')
  {
    if credit > 0 {
      var t := Emit(WindowFrame(id, credit), Done);
      InFlightAppend(DataBytes, e, e', wire, t, id');
      InFlightAppend(CreditUnits, e, e', wire, t, id');
      InFlightAppend(Openings, e, e', wire, t, id');
      WindowAmount(id, credit, id');
    } else {
      assert e'.hand == e.hand;
    }
  }

  /** Closing and aborting put a frame in hand that carries nothing; an abort discards what is unread. */
  lemma ActCloseShares(e: Endpoint, id: Id, r: Reason, wire: seq<Frame>, id': Id)
    requires id in e.sess.streams
    ensures var e' := ActClose(e, id, r);
            && WriterSide(e', wire, id') == WriterSide(e, wire, id')
            && ReaderSide(e', wire, id') == ReaderSide(e, wire, id')
            && InFlight(Openings, e', wire, id') == InFlight(Openings, e, wire, id')
  {
    var e' := ActClose(e, id, r);
    var t := e'.hand[|e.hand|];
    InFlightAppend(DataBytes, e, e', wire, t, id');
    InFlightAppend(CreditUnits, e, e', wire, t, id');
    InFlightAppend(Openings, e, e', wire, t, id');
  }

  lemma ActResetShares(e: Endpoint, id: Id, r: Reason, wire: seq<Frame>, id': Id)
    requires id in e.sess.streams
    ensures var e' := ActReset(e, id, r);
            && WriterSide(e', wire, id') == WriterSide(e, wire, id')
            && ReaderSide(e', wire, id') == ReaderSide(e, wire, id') - (if id == id' then Unread(e, id) else 0)
            && InFlight(Openings, e', wire, id') == InFlight(Openings, e, wire, id')
  {
    var e' := ActReset(e, id, r);
    var t := e'.hand[|e.hand|];
    InFlightAppend(DataBytes, e, e', wire, t, id');
    InFlightAppend(CreditUnits, e, e', wire, t, id');
    InFlightAppend(Openings, e, e', wire, t, id');
  }

  lemma ActOpenShares(e: Endpoint, payload: seq<byte>, wire: seq<Frame>, id': Id)
    requires OpenBegin(e.sess).OpenStarted? && !e.Has(e.sess.nextID)
    ensures var e' := ActOpen(e, payload);
            && WriterSide(e', wire, id') == WriterSide(e, wire, id')
            && ReaderSide(e', wire, id') == ReaderSide(e, wire, id')
            && InFlight(Openings, e', wire, id') ==
               InFlight(Openings, e, wire, id') + (if id' == e.sess.nextID then 1 else 0)
  {
    var e' := ActOpen(e, payload);
    var t := e'.hand[|e.hand|];
    InFlightAppend(DataBytes, e, e', wire, t, id');
    InFlightAppend(CreditUnits, e, e', wire, t, id');
    InFlightAppend(Openings, e, e', wire, t, id');
  }

  lemma ActPingShares(e: Endpoint, wire: seq<Frame>, id': Id)
    ensures var e' := ActPing(e);
            && WriterSide(e', wire, id') == WriterSide(e, wire, id')
            && ReaderSide(e', wire, id') == ReaderSide(e, wire, id')
            && InFlight(Openings, e', wire, id') == InFlight(Openings, e, wire, id')
  {
    var e' := ActPing(e);
    var t := e'.hand[|e.hand|];
    InFlightAppend(DataBytes, e, e', wire, t, id');
    InFlightAppend(CreditUnits, e, e', wire, t, id');
    InFlightAppend(Openings, e, e', wire, t, id');
  }

  lemma ActEndShares(e: Endpoint, tell: bool, r: Reason, wire: seq<Frame>, id': Id)
    requires Enabled(e, OpEnd(tell, r))
    ensures var (e', out) := Act(e, OpEnd(tell, r));
            && WriterSide(e', wire + out, id') == WriterSide(e, wire, id')
            && ReaderSide(e', wire + out, id') == ReaderSide(e, wire, id')
            && InFlight(Openings, e', wire + out, id') == InFlight(Openings, e, wire, id')
  {
    if tell {
      var f := Frame(ERROR, 0, r);
      InFramesOne(DataBytes, wire, f, id');
      InFramesOne(CreditUnits, wire, f, id');
      InFramesOne(Openings, wire, f, id');
    } else {
      assert wire + [] == wire;
    }
  }

  /** What an operation that loses a frame takes out of flight. */
  function LostAmount(kind: Kind, e: Endpoint, op: Op, id: Id): nat
    requires Enabled(e, op)
  {
    match op
    case OpPerform(k, lost) => if lost then InFront(kind, e.hand[k], id) else 0
    case OpReader(lost) => if lost then InFront(kind, e.reader, id) else 0
    case _ => 0
  }

  /** What an operation discards unread. */
  function Discarded(e: Endpoint, op: Op, id: Id): nat {
    if op.OpReset? && op.id == id then Unread(e, id) else 0
  }

  ghost predicate SharesKept(e: Endpoint, op: Op, wire: seq<Frame>, id: Id)
    requires Enabled(e, op)
  {
    var (e', out) := Act(e, op);
    && WriterSide(e', wire + out, id) + LostAmount(DataBytes, e, op, id) == WriterSide(e, wire, id)
    && ReaderSide(e', wire + out, id) + LostAmount(CreditUnits, e, op, id) + Discarded(e, op, id) ==
       ReaderSide(e, wire, id)
    && InFlight(Openings, e', wire + out, id) + LostAmount(Openings, e, op, id) ==
       InFlight(Openings, e, wire, id) + (if op.OpOpen? && id == e.sess.nextID then 1 else 0)
  }

  lemma PerformSharesKept(e: Endpoint, k: nat, lost: bool, wire: seq<Frame>, id: Id)
    requires Enabled(e, OpPerform(k, lost))
    ensures SharesKept(e, OpPerform(k, lost), wire, id)
  {
    PerformStreams(e.sess, e.hand[k], lost);
    ActPerformInFlight(DataBytes, e, k, lost, wire, id);
    ActPerformInFlight(CreditUnits, e, k, lost, wire, id);
    ActPerformInFlight(Openings, e, k, lost, wire, id);
  }

  lemma ReaderSharesKept(e: Endpoint, lost: bool, wire: seq<Frame>, id: Id)
    requires Enabled(e, OpReader(lost))
    ensures SharesKept(e, OpReader(lost), wire, id)
  {
    PerformStreams(e.sess, e.reader, lost);
    ActReaderInFlight(DataBytes, e, lost, wire, id);
    ActReaderInFlight(CreditUnits, e, lost, wire, id);
    ActReaderInFlight(Openings, e, lost, wire, id);
  }

  lemma CallSharesKept(e: Endpoint, op: Op, wire: seq<Frame>, id: Id)
    requires Enabled(e, op) && e.sess.cfg.maxFrame > 0
    requires op.OpOpen? || op.OpWrite? || op.OpClose? || op.OpReset? || op.OpPing?
    requires op.OpOpen? ==> !e.Has(e.sess.nextID)
    ensures SharesKept(e, op, wire, id)
  {
    assert wire + [] == wire;
    match op
    case OpOpen(payload) => ActOpenShares(e, payload, wire, id);
    case OpWrite(id0, p) => ActWriteShares(e, id0, p, wire, id);
    case OpClose(id0, r) => ActCloseShares(e, id0, r, wire, id);
    case OpReset(id0, r) => ActResetShares(e, id0, r, wire, id);
    case OpPing => ActPingShares(e, wire, id);
  }

  lemma ReadSharesKept(e: Endpoint, id: Id, max: nat, wire: seq<Frame>, id': Id)
    requires Enabled(e, OpRead(id, max))
    requires Bounded(e.sess.streams[id], e.sess.cfg.window, e.sess.cfg.Threshold())
    requires Unread(e, id) + Batched(e, id) < TWO_32
    ensures SharesKept(e, OpRead(id, max), wire, id')
  {
    ActReadShares(e, id, max, wire, id');
    assert wire + [] == wire;
  }

  /** Nothing changed that either share counts. */
  lemma SameBooks(e: Endpoint, e': Endpoint, wire: seq<Frame>, id: Id)
    requires e'.hand == e.hand && e'.reader == e.reader && e'.late == e.late
    requires e'.sess.streams == e.sess.streams && e'.sess.cfg == e.sess.cfg
    ensures WriterSide(e', wire + [], id) == WriterSide(e, wire, id)
    ensures ReaderSide(e', wire + [], id) == ReaderSide(e, wire, id)
    ensures InFlight(Openings, e', wire + [], id) == InFlight(Openings, e, wire, id)
  {
    assert wire + [] == wire;
  }

  lemma IdleSharesKept(e: Endpoint, op: Op, wire: seq<Frame>, id: Id)
    requires Enabled(e, op) && (op.OpOpenReturn? || op.OpOpenCancel? || op.OpAccept?)
    ensures SharesKept(e, op, wire, id)
  {
    SameBooks(e, Act(e, op).0, wire, id);
  }

  /** An end's own operations keep both its shares, but for frames lost once its session is over and
      bytes an abort discards. */
  lemma ActShares(e: Endpoint, op: Op, wire: seq<Frame>, id: Id)
    requires Enabled(e, op) && e.sess.cfg.maxFrame > 0
    requires op.OpOpen? ==> !e.Has(e.sess.nextID)
    requires op.OpRead? ==> Bounded(e.sess.streams[op.id], e.sess.cfg.window, e.sess.cfg.Threshold())
    requires op.OpRead? ==> Unread(e, op.id) + Batched(e, op.id) < TWO_32
    ensures SharesKept(e, op, wire, id)
  {
    match op
    case OpRead(id0, max) => ReadSharesKept(e, id0, max, wire, id);
    case OpEnd(tell, r) => ActEndShares(e, tell, r, wire, id);
    case OpPerform(k, lost) => PerformSharesKept(e, k, lost, wire, id);
    case OpReader(lost) => ReaderSharesKept(e, lost, wire, id);
    case OpOpenReturn(_) => IdleSharesKept(e, op, wire, id);
    case OpOpenCancel(_) => IdleSharesKept(e, op, wire, id);
    case OpAccept => IdleSharesKept(e, op, wire, id);
    case _ => CallSharesKept(e, op, wire, id);
  }

  // What an arriving frame does to the receiving end's shares

  /** An aborting close for the stream. */
  predicate Aborts(f: Frame, id: Id) {
    f.typ == CLOSE_STREAM && f.id == id && !Orderly(f.payload)
  }

  lemma SetStreamShares(e: Endpoint, e': Endpoint, id: Id, st: StreamState, wire: seq<Frame>, id': Id)
    requires id in e.sess.streams
    requires e'.sess.streams == e.sess.streams[id := st] && e'.sess.cfg == e.sess.cfg
    requires e'.hand == e.hand
    requires forall kind :: InTask(kind, e'.reader, id') == InTask(kind, e.reader, id')
    ensures WriterSide(e', wire, id') - WriterSide(e, wire, id') ==
            if id == id' then st.sendWindow - e.sess.streams[id].sendWindow else 0
    ensures ReaderSide(e', wire, id') - ReaderSide(e, wire, id') ==
            e'.Late(id') - e.Late(id') +
            if id == id' then |st.buf| + st.pendingCredit - Unread(e, id) - Batched(e, id) else 0
    ensures InFlight(Openings, e', wire, id') == InFlight(Openings, e, wire, id')
  {
    assert InTask(DataBytes, e'.reader, id') == InTask(DataBytes, e.reader, id');
    assert InTask(CreditUnits, e'.reader, id') == InTask(CreditUnits, e.reader, id');
    assert InTask(Openings, e'.reader, id') == InTask(Openings, e.reader, id');
  }

  lemma SameStreamsShares(e: Endpoint, e': Endpoint, wire: seq<Frame>, id: Id)
    requires e'.hand == e.hand && e'.sess.cfg == e.sess.cfg
    requires SendWindow(e', id) == SendWindow(e, id)
    requires Unread(e', id) == Unread(e, id) && Batched(e', id) == Batched(e, id) && e'.Late(id) == e.Late(id)
    requires forall kind :: InTask(kind, e'.reader, id) == InTask(kind, e.reader, id)
    ensures WriterSide(e', wire, id) == WriterSide(e, wire, id)
    ensures ReaderSide(e', wire, id) == ReaderSide(e, wire, id)
    ensures InFlight(Openings, e', wire, id) == InFlight(Openings, e, wire, id)
  {
    assert InTask(DataBytes, e'.reader, id) == InTask(DataBytes, e.reader, id);
    assert InTask(CreditUnits, e'.reader, id) == InTask(CreditUnits, e.reader, id);
    assert InTask(Openings, e'.reader, id) == InTask(Openings, e.reader, id);
  }

  /** A stream's windows and unread bytes are as they were, and the reader has nothing to send for it. */
  predicate Unmoving(e: Endpoint, e': Endpoint, id: Id) {
    && e'.hand == e.hand && e'.sess.cfg == e.sess.cfg && e'.Late(id) == e.Late(id)
    && SendWindow(e', id) == SendWindow(e, id) && Unread(e', id) == Unread(e, id) && Batched(e', id) == Batched(e, id)
    && InTask(DataBytes, e'.reader, id) == InTask(CreditUnits, e'.reader, id) == InTask(Openings, e'.reader, id) == 0
  }

  lemma ShutdownUnmoving(e: Endpoint, e': Endpoint, r: Reason, fault: bool, id: Id)
    requires e'.sess == Shutdown(e.sess, r, fault) && e'.hand == e.hand && e'.late == e.late && e'.reader.Done?
    ensures Unmoving(e, e', id)
  {
    ShutdownShares(e.sess, r, fault, id);
  }

  lemma OpenUnmoving(e: Endpoint, f: Frame, id: Id)
    requires f.typ == OPEN_STREAM && !e.Has(f.id)
    ensures Unmoving(e, Arrive(e, f), id)
  {
    var e' := Arrive(e, f);
    if Wrap32(|f.payload|) > e.sess.cfg.maxFrame {
      ShutdownUnmoving(e, e', LIMIT_FRAME, true, id);
    } else if HandleOpen(e.sess, f.id, f.payload).Fault? {
      ShutdownUnmoving(e, e', MALFORMED, true, id);
    }
  }

  lemma RestUnmoving(e: Endpoint, f: Frame, id: Id)
    requires f.typ !in {OPEN_STREAM, STREAM_DATA, STREAM_WINDOW, CLOSE_STREAM}
    ensures Unmoving(e, Arrive(e, f), id)
  {
    var e' := Arrive(e, f);
    if Wrap32(|f.payload|) > e.sess.cfg.maxFrame {
      ShutdownUnmoving(e, e', LIMIT_FRAME, true, id);
    } else if f.typ == ERROR {
      ShutdownUnmoving(e, e', f.payload, false, id);
    } else if f.typ == STREAM_OK || f.typ == PING || f.typ == PONG {
      assert e'.sess.streams == e.sess.streams;
    } else {
      ShutdownUnmoving(e, e', MALFORMED, true, id);
    }
  }

  /** Frames other than data, credit and close move nothing. */
  lemma ArriveQuietly(e: Endpoint, f: Frame, wire: seq<Frame>, id: Id)
    requires e.reader.Done?
    requires f.typ == OPEN_STREAM ==> !e.Has(f.id)
    requires f.typ !in {STREAM_DATA, STREAM_WINDOW, CLOSE_STREAM}
    ensures var e' := Arrive(e, f);
            && WriterSide(e', wire, id) == WriterSide(e, wire, id)
            && ReaderSide(e', wire, id) == ReaderSide(e, wire, id)
            && InFlight(Openings, e', wire, id) == InFlight(Openings, e, wire, id)
  {
    if f.typ == OPEN_STREAM {
      OpenUnmoving(e, f, id);
    } else {
      RestUnmoving(e, f, id);
    }
    UnmovingShares(e, Arrive(e, f), wire, id);
  }

  lemma UnmovingShares(e: Endpoint, e': Endpoint, wire: seq<Frame>, id: Id)
    requires e.reader.Done? && Unmoving(e, e', id)
    ensures WriterSide(e', wire, id) == WriterSide(e, wire, id)
    ensures ReaderSide(e', wire, id) == ReaderSide(e, wire, id)
    ensures InFlight(Openings, e', wire, id) == InFlight(Openings, e, wire, id)
  {
  }

  /** Data that is taken, or dropped as late, moves from the peer's share to this end's; data for a stream
      that is gone or aborted leaves the books. */
  lemma ArriveData(e: Endpoint, f: Frame, wire: seq<Frame>, id: Id)
    requires e.reader.Done? && f.typ == STREAM_DATA && |f.payload| < TWO_32
    ensures var e' := Arrive(e, f);
            && WriterSide(e', wire, id) == WriterSide(e, wire, id)
            && ReaderSide(e', wire, id) <= ReaderSide(e, wire, id) + Amount(DataBytes, f, id)
            && InFlight(Openings, e', wire, id) == InFlight(Openings, e, wire, id)
            && (f.id == id && id in e.sess.registered && e.Has(id) && !e.sess.streams[id].reset
                && |f.payload| <= e.sess.cfg.maxFrame
                && (e.sess.streams[id].Accepting() ==> |f.payload| <= e.sess.streams[id].recvWindow) ==>
                  ReaderSide(e', wire, id) == ReaderSide(e, wire, id) + |f.payload|)
  {
    var e' := Arrive(e, f);
    if |f.payload| <= e.sess.cfg.maxFrame && f.id in e.sess.registered && e.Has(f.id) &&
       StreamModel.Deliver(e.sess.streams[f.id], f.payload).Some? {
      var st := StreamModel.Deliver(e.sess.streams[f.id], f.payload).value;
      SetStreamShares(e, e', f.id, st, wire, id);
    } else {
      SameStreamsShares(e, e', wire, id);
    }
  }

  lemma ArriveCredit(e: Endpoint, f: Frame, wire: seq<Frame>, id: Id)
    requires e.reader.Done? && f.typ == STREAM_WINDOW && |f.payload| < TWO_32
    ensures var e' := Arrive(e, f);
            && WriterSide(e', wire, id) <= WriterSide(e, wire, id) + Amount(CreditUnits, f, id)
            && ReaderSide(e', wire, id) == ReaderSide(e, wire, id)
            && InFlight(Openings, e', wire, id) == InFlight(Openings, e, wire, id)
            && (f.id == id && id in e.sess.registered && e.Has(id) && DecodeWindow(f.payload).Some?
                && |f.payload| <= e.sess.cfg.maxFrame
                && SendWindow(e, id) + Amount(CreditUnits, f, id) < TWO_32 ==>
                  WriterSide(e', wire, id) == WriterSide(e, wire, id) + Amount(CreditUnits, f, id))
  {
    var e' := Arrive(e, f);
    var credit := DecodeWindow(f.payload);
    if |f.payload| <= e.sess.cfg.maxFrame && credit.Some? && f.id in e.sess.registered && e.Has(f.id) {
      SetStreamShares(e, e', f.id, GrantCredit(e.sess.streams[f.id], credit.value), wire, id);
    } else {
      SameStreamsShares(e, e', wire, id);
    }
  }

  lemma ArriveClose(e: Endpoint, f: Frame, wire: seq<Frame>, id: Id)
    requires e.reader.Done? && f.typ == CLOSE_STREAM && |f.payload| < TWO_32
    ensures var e' := Arrive(e, f);
            && WriterSide(e', wire, id) == WriterSide(e, wire, id)
            && ReaderSide(e', wire, id) <= ReaderSide(e, wire, id)
            && InFlight(Openings, e', wire, id) == InFlight(Openings, e, wire, id)
            && (!Aborts(f, id) ==> ReaderSide(e', wire, id) == ReaderSide(e, wire, id))
  {
    var e' := Arrive(e, f);
    ReceiveClose(e.sess, f);
    if |f.payload| <= e.sess.cfg.maxFrame && f.id in e.sess.registered && e.Has(f.id) {
      SetStreamShares(e, e', f.id, RemoteClose(e.sess.streams[f.id], CloseReason(f)), wire, id);
    } else {
      ShutdownShares(e.sess, LIMIT_FRAME, true, id);
      SameStreamsShares(e, e', wire, id);
    }
  }

  function CloseReason(f: Frame): Reason {
    if f.payload == [] then REASON_OK else f.payload
  }

  lemma ReceiveClose(s: SessionState, f: Frame)
    requires f.typ == CLOSE_STREAM && |f.payload| < TWO_32
    ensures var (s', t) := Receive(s, f);
            && s'.cfg == s.cfg
            && (if |f.payload| > s.cfg.maxFrame then
                  s' == Shutdown(s, LIMIT_FRAME, true) && t == Done
                else if f.id in s.registered && f.id in s.streams then
                  && t == CheckRetire(f.id)
                  && s'.streams == s.streams[f.id := RemoteClose(s.streams[f.id], CloseReason(f))]
                else
                  t == Done && s'.streams == s.streams)
  {
  }

  /** Ending a session leaves every stream's windows and unread bytes alone. */
  lemma ShutdownShares(s: SessionState, r: Reason, fault: bool, id: Id)
    ensures var s' := Shutdown(s, r, fault);
            && s'.cfg == s.cfg && s'.streams.Keys == s.streams.Keys
            && (id in s.streams ==>
                  && s'.streams[id].sendWindow == s.streams[id].sendWindow
                  && s'.streams[id].buf == s.streams[id].buf
                  && s'.streams[id].pendingCredit == s.streams[id].pendingCredit)
  {
  }
}
