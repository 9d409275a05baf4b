/** Where the guarantees stop: frames too small for a refusal, and a write racing a close. */
module MuxFaults {
  import opened Bytes
  import opened Frames
  import opened StreamModel
  import opened SessionModel
  import opened MuxSystem
  import opened MuxFlow
  import opened MuxInvariant
  import opened MuxLocal
  import opened MuxTheorems

  lemma {:induction false} RunConcat(sys: Sys, a: seq<Step>, b: seq<Step>)
    requires Run(sys, a).Some?
    ensures Run(sys, a + b) == Run(Run(sys, a).value, b)
    decreases |a|
  {
    if a == [] {
      assert a + b == b;
    } else {
      assert (a + b)[0] == a[0] && (a + b)[1..] == a[1..] + b;
      RunConcat(Take(sys, a[0]), a[1..], b);
    }
  }

  lemma RunOne(sys: Sys, step: Step)
    requires CanStep(sys, step)
    ensures Run(sys, [step]) == Some(Take(sys, step))
  {
    assert [step][1..] == [];
  }

  lemma RunTwo(sys: Sys, a: Step, b: Step)
    requires CanStep(sys, a) && CanStep(Take(sys, a), b)
    ensures Run(sys, [a, b]) == Some(Take(Take(sys, a), b))
  {
    assert [a, b][1..] == [b];
    RunOne(Take(sys, a), b);
  }

  // A full table: streams the server opened and never sent, and streams it accepted from the client

  /** The client has opened j streams, and all of its frames are out. */
  ghost predicate ClientSide(cfg: Config, e: Endpoint, j: nat) {
    && cfg.isClient && e.sess.cfg == cfg && CanReceive(e) && e.opens == j && |e.hand| == j
    && e.sess.nextID == NthId(cfg, j)
    && (forall id | e.Has(id) :: cfg.Mine(id) && IndexOf(cfg, id) < j)
    && e.sess.registered <= e.sess.streams.Keys && |e.sess.registered| == j
  }

  /** The server has opened k streams and accepted the client's first j. */
  ghost predicate ServerSide(cfg: Config, e: Endpoint, k: nat, j: nat) {
    && !cfg.isClient && e.sess.cfg == cfg && CanReceive(e) && e.opens == k && |e.sess.acceptQ| == j
    && e.sess.nextID == NthId(cfg, k)
    && (forall id | e.Has(id) ::
          if cfg.Mine(id) then IndexOf(cfg, id) < k else IndexOf(cfg.(isClient := true), id) < j)
    && e.sess.registered <= e.sess.streams.Keys && |e.sess.registered| == k + j
  }

  ghost predicate Stocked(cfg: Config, sys: Sys, k: nat, j: nat) {
    && sys.cs == [] && sys.sc == []
    && ClientSide(cfg.(isClient := true), sys.c, j) && ServerSide(cfg.(isClient := false), sys.s, k, j)
  }

  lemma ServerOpens(cfg: Config, e: Endpoint, k: nat, j: nat)
    requires cfg.Valid() && ServerSide(cfg, e, k, j) && k + j < cfg.maxStreams && k < MAX_OPENS
    ensures Enabled(e, OpOpen([])) && ServerSide(cfg, ActOpen(e, []), k + 1, j)
  {
    NthIdIndex(cfg, k);
    var e' := ActOpen(e, []);
    assert e.sess.nextID !in e.sess.registered;
    forall id | e'.Has(id)
      ensures if cfg.Mine(id) then IndexOf(cfg, id) < k + 1 else IndexOf(cfg.(isClient := true), id) < j
    {
      assert id == e.sess.nextID || e.Has(id);
    }
    NextNth(cfg, k);
  }

  lemma NextNth(cfg: Config, k: nat)
    ensures Wrap32(NthId(cfg, k) + 2) == NthId(cfg, k + 1)
  {
  }

  lemma ClientAsks(cfg: Config, e: Endpoint, j: nat)
    requires cfg.Valid() && ClientSide(cfg, e, j) && j < cfg.maxStreams && j < MAX_OPENS
    ensures Enabled(e, OpOpen([])) && Enabled(ActOpen(e, []), OpPerform(j, false))
    ensures var (e', out) := ActPerform(ActOpen(e, []), j, false);
            ClientSide(cfg, e', j + 1) && out == [Frame(OPEN_STREAM, NthId(cfg, j), [])]
  {
    NthIdIndex(cfg, j);
    var e1 := ActOpen(e, []);
    assert e.sess.nextID !in e.sess.registered;
    forall id | e1.Has(id) ensures cfg.Mine(id) && IndexOf(cfg, id) < j + 1 {
      assert id == e.sess.nextID || e.Has(id);
    }
    NextNth(cfg, j);
  }

  lemma ClientHears(cfg: Config, e: Endpoint, j: nat, id: Id)
    requires cfg.Valid() && ClientSide(cfg, e, j)
    ensures ClientSide(cfg, Arrive(e, OkFrame(id)), j)
  {
    assert Receive(e.sess, OkFrame(id)) == (CompleteOpen(e.sess, id, REASON_OK), Done);
  }

  /** The identifier is the client's, and new to the server. */
  lemma NewToServer(cfg: Config, e: Endpoint, k: nat, j: nat)
    requires ServerSide(cfg, e, k, j) && j < MAX_OPENS
    ensures var id := NthId(cfg.(isClient := true), j); !cfg.Mine(id) && !e.Has(id) && id !in e.sess.registered
  {
    NthIdIndex(cfg.(isClient := true), j);
  }

  lemma ServerTakesIn(cfg: Config, e: Endpoint, k: nat, j: nat)
    requires cfg.Valid() && ServerSide(cfg, e, k, j) && k + j < cfg.maxStreams && j < MAX_OPENS
    ensures var id := NthId(cfg.(isClient := true), j);
            var e1 := Arrive(e, Frame(OPEN_STREAM, id, []));
            var (e2, out2) := ActReader(e1, false);
            var (e3, out3) := ActReader(e2, false);
            out2 == [OkFrame(id)] && out3 == [] && ServerSide(cfg, e3, k, j + 1)
  {
    var client := cfg.(isClient := true);
    var id := NthId(client, j);
    NewToServer(cfg, e, k, j);
    NthIdIndex(client, j);
    var f := Frame(OPEN_STREAM, id, []);
    var taken := e.sess.(streams := e.sess.streams[id := NewStream(cfg.window, [])],
                         registered := e.sess.registered + {id});
    assert Receive(e.sess, f) == (taken, Emit(OkFrame(id), Enqueue(id)));
    var e3 := ActReader(ActReader(Arrive(e, f), false).0, false).0;
    assert e3.sess == taken.(acceptQ := e.sess.acceptQ + [id]);
    forall i | e3.Has(i)
      ensures if cfg.Mine(i) then IndexOf(cfg, i) < k else IndexOf(client, i) < j + 1
    {
      assert i == id || e.Has(i);
    }
  }

  lemma ServerRefuses(cfg: Config, e: Endpoint, k: nat, j: nat)
    requires cfg.Valid() && ServerSide(cfg, e, k, j) && k + j >= cfg.maxStreams && j < MAX_OPENS
    ensures var id := NthId(cfg.(isClient := true), j);
            Arrive(e, Frame(OPEN_STREAM, id, [])) == e.(reader := Emit(CloseFrame(id, LIMIT_STREAMS), Done))
  {
    NewToServer(cfg, e, k, j);
  }

  lemma ClientFaults(e: Endpoint, f: Frame)
    requires e.Live() && |f.payload| == |LIMIT_STREAMS| && e.sess.cfg.maxFrame < |LIMIT_STREAMS|
    ensures Arrive(e, f).sess.standing == Over(LIMIT_FRAME, true)
  {
  }

  // The same, as runs of the pair

  lemma RunThree(sys: Sys, a: Step, b: Step, c: Step)
    requires CanStep(sys, a) && CanStep(Take(sys, a), b) && CanStep(Take(Take(sys, a), b), c)
    ensures Run(sys, [a, b, c]) == Some(Take(Take(Take(sys, a), b), c))
  {
    assert [a, b, c][1..] == [b, c];
    RunTwo(Take(sys, a), b, c);
  }

  /** The client opens one more stream, and its frame reaches the wire. */
  lemma AskRun(cfg: Config, sys: Sys, k: nat, j: nat) returns (steps: seq<Step>)
    requires cfg.Valid() && Stocked(cfg, sys, k, j) && j < cfg.maxStreams && j < MAX_OPENS
    ensures Run(sys, steps).Some? && AllModest(0, steps)
    ensures var end := Run(sys, steps).value;
            && end.s == sys.s && end.sc == [] && end.cs == [Frame(OPEN_STREAM, NthId(cfg.(isClient := true), j), [])]
            && ClientSide(cfg.(isClient := true), end.c, j + 1)
  {
    ClientAsks(cfg.(isClient := true), sys.c, j);
    steps := [Local(Client, OpOpen([])), Local(Client, OpPerform(j, false))];
    assert Take(sys, steps[0]) == sys.(c := ActOpen(sys.c, []), cs := []);
    RunTwo(sys, steps[0], steps[1]);
  }

  /** The server takes it in and acknowledges it. */
  lemma TakesInRun(cfg: Config, sys: Sys, k: nat, j: nat) returns (end: Sys)
    requires cfg.Valid() && k + j < cfg.maxStreams && j < MAX_OPENS
    requires ServerSide(cfg.(isClient := false), sys.s, k, j)
    requires sys.sc == [] && sys.cs == [Frame(OPEN_STREAM, NthId(cfg.(isClient := true), j), [])]
    ensures Run(sys, [Incoming(Server), Local(Server, OpReader(false)), Local(Server, OpReader(false))]) == Some(end)
    ensures end == sys.(s := end.s, cs := [], sc := [OkFrame(NthId(cfg.(isClient := true), j))])
    ensures ServerSide(cfg.(isClient := false), end.s, k, j + 1)
  {
    var server := cfg.(isClient := false);
    assert server.(isClient := true) == cfg.(isClient := true);
    var id := NthId(cfg.(isClient := true), j);
    ServerTakesIn(server, sys.s, k, j);
    var turn := Local(Server, OpReader(false));
    var e1 := Arrive(sys.s, sys.cs[0]);
    var e2, e3 := ActReader(e1, false).0, ActReader(ActReader(e1, false).0, false).0;
    end := sys.(s := e3, cs := [], sc := [OkFrame(id)]);
    assert Take(sys, Incoming(Server)) == sys.(s := e1, cs := []);
    assert Take(sys.(s := e1, cs := []), turn) == sys.(s := e2, cs := [], sc := [OkFrame(id)]);
    assert Take(sys.(s := e2, cs := [], sc := [OkFrame(id)]), turn) == end;
    RunThree(sys, Incoming(Server), turn, turn);
  }

  /** The server takes it in and acknowledges it, and the client hears so. */
  lemma AcceptRun(cfg: Config, sys: Sys, k: nat, j: nat) returns (steps: seq<Step>)
    requires cfg.Valid() && k + j < cfg.maxStreams && j < MAX_OPENS
    requires ServerSide(cfg.(isClient := false), sys.s, k, j) && ClientSide(cfg.(isClient := true), sys.c, j + 1)
    requires sys.sc == [] && sys.cs == [Frame(OPEN_STREAM, NthId(cfg.(isClient := true), j), [])]
    ensures Run(sys, steps).Some? && AllModest(0, steps) && Stocked(cfg, Run(sys, steps).value, k, j + 1)
  {
    var turn := Local(Server, OpReader(false));
    var id := NthId(cfg.(isClient := true), j);
    var mid := TakesInRun(cfg, sys, k, j);
    ClientHears(cfg.(isClient := true), sys.c, j + 1, id);
    assert Take(mid, Incoming(Client)) == mid.(c := Arrive(sys.c, OkFrame(id)), sc := []);
    RunOne(mid, Incoming(Client));
    RunConcat(sys, [Incoming(Server), turn, turn], [Incoming(Client)]);
    steps := [Incoming(Server), turn, turn] + [Incoming(Client)];
  }

  lemma RunThen(sys: Sys, a: seq<Step>, mid: Sys, b: seq<Step>, end: Sys)
    requires Run(sys, a) == Some(mid) && Run(mid, b) == Some(end)
    ensures Run(sys, a + b) == Some(end)
  {
    RunConcat(sys, a, b);
  }

  /** The server opens one more stream, and keeps its frame in hand. */
  lemma ServerOpenRun(cfg: Config, sys: Sys, k: nat) returns (steps: seq<Step>, end: Sys)
    requires cfg.Valid() && Stocked(cfg, sys, k, 0) && k < cfg.maxStreams && k < MAX_OPENS
    ensures Run(sys, steps) == Some(end) && AllModest(0, steps) && Stocked(cfg, end, k + 1, 0)
  {
    var step := Local(Server, OpOpen([]));
    ServerOpens(cfg.(isClient := false), sys.s, k, 0);
    end := sys.(s := ActOpen(sys.s, []), sc := []);
    assert Take(sys, step) == end;
    RunOne(sys, step);
    steps := [step];
  }

  /** The client opens one more stream, and the server accepts it. */
  lemma ClientOpenRun(cfg: Config, sys: Sys, k: nat, j: nat) returns (steps: seq<Step>, end: Sys)
    requires cfg.Valid() && Stocked(cfg, sys, k, j) && k + j < cfg.maxStreams && j < MAX_OPENS
    ensures Run(sys, steps) == Some(end) && AllModest(0, steps) && Stocked(cfg, end, k, j + 1)
  {
    var ask := AskRun(cfg, sys, k, j);
    var accept := AcceptRun(cfg, Run(sys, ask).value, k, j);
    RunConcat(sys, ask, accept);
    steps := ask + accept;
    end := Run(sys, steps).value;
  }

  lemma StartStocked(cfg: Config)
    ensures Run(Start(cfg), []) == Some(Start(cfg)) && Stocked(cfg, Start(cfg), 0, 0)
  {
  }

  /** A run of a fresh pair that stocks it so. */
  ghost predicate Stocks(cfg: Config, steps: seq<Step>, end: Sys, k: nat, j: nat) {
    Run(Start(cfg), steps) == Some(end) && AllModest(0, steps) && Stocked(cfg, end, k, j)
  }

  lemma ServerStocks(cfg: Config, before: seq<Step>, mid: Sys, k: nat) returns (steps: seq<Step>, end: Sys)
    requires cfg.Valid() && Stocks(cfg, before, mid, k, 0) && k < cfg.maxStreams && k < MAX_OPENS
    ensures Stocks(cfg, steps, end, k + 1, 0)
  {
    var more;
    more, end := ServerOpenRun(cfg, mid, k);
    RunThen(Start(cfg), before, mid, more, end);
    steps := before + more;
  }

  lemma ClientStocks(cfg: Config, before: seq<Step>, mid: Sys, k: nat, j: nat) returns (steps: seq<Step>, end: Sys)
    requires cfg.Valid() && Stocks(cfg, before, mid, k, j) && k + j < cfg.maxStreams && j < MAX_OPENS
    ensures Stocks(cfg, steps, end, k, j + 1)
  {
    var more;
    more, end := ClientOpenRun(cfg, mid, k, j);
    RunThen(Start(cfg), before, mid, more, end);
    steps := before + more;
  }

  lemma {:induction false} FillServer(cfg: Config, k: nat) returns (steps: seq<Step>, end: Sys)
    requires cfg.Valid() && k <= cfg.maxStreams && k <= MAX_OPENS
    ensures Stocks(cfg, steps, end, k, 0)
  {
    if k == 0 {
      StartStocked(cfg);
      steps, end := [], Start(cfg);
    } else {
      var before, mid := FillServer(cfg, k - 1);
      steps, end := ServerStocks(cfg, before, mid, k - 1);
    }
  }

  /** Fills the server's table: with its own streams as far as its identifiers go, then with the client's. */
  lemma {:induction false} Fill(cfg: Config, k: nat, j: nat) returns (steps: seq<Step>, end: Sys)
    requires cfg.Valid() && k + j <= cfg.maxStreams && k <= MAX_OPENS && j <= MAX_OPENS
    ensures Stocks(cfg, steps, end, k, j)
    decreases j
  {
    if j == 0 {
      steps, end := FillServer(cfg, k);
    } else {
      var before, mid := Fill(cfg, k, j - 1);
      steps, end := ClientStocks(cfg, before, mid, k, j - 1);
    }
  }

  /** The client's open meets the full table, and the refusal does not fit the client's frames. */
  lemma RefusalFaults(cfg: Config, sys: Sys, k: nat, j: nat) returns (steps: seq<Step>)
    requires cfg.Valid() && cfg.maxFrame < |LIMIT_STREAMS|
    requires Stocked(cfg, sys, k, j) && k + j == cfg.maxStreams && k > 0 && j < MAX_OPENS
    ensures Run(sys, steps).Some? && AllModest(0, steps)
    ensures Run(sys, steps).value.c.sess.standing == Over(LIMIT_FRAME, true)
  {
    var ask := AskRun(cfg, sys, k, j);
    var asked := Run(sys, ask).value;
    var refusal := CloseFrame(NthId(cfg.(isClient := true), j), LIMIT_STREAMS);
    ServerRefuses(cfg.(isClient := false), asked.s, k, j);
    assert cfg.(isClient := false).(isClient := true) == cfg.(isClient := true);
    var turn := Local(Server, OpReader(false));
    var refused := asked.(s := asked.s.(reader := Emit(refusal, Done)), cs := []);
    assert Take(asked, Incoming(Server)) == refused;
    var answered := asked.(s := asked.s.(reader := Done), cs := [], sc := [refusal]);
    assert Take(refused, turn) == answered;
    ClientFaults(answered.c, refusal);
    RunThree(asked, Incoming(Server), turn, Incoming(Client));
    RunConcat(sys, ask, [Incoming(Server), turn, Incoming(Client)]);
    steps := ask + [Incoming(Server), turn, Incoming(Client)];
  }

  predicate Faulted(sys: Sys) {
    Failed(sys.c) || Failed(sys.s)
  }

  /** For every configuration the handshake admits: no run of conforming sessions whose callers keep to the
      agreed frame size ends in a protocol fault exactly when that size holds the twenty-two bytes of the
      refusal "limit_streams_exceeded". */
  lemma FaultFreeExactly(cfg: Config)
    requires cfg.Valid()
    ensures cfg.maxFrame >= 22 <==>
            forall steps | Run(Start(cfg), steps).Some? && AllModest(cfg.maxFrame, steps) ::
              !Faulted(Run(Start(cfg), steps).value)
  {
    assert |LIMIT_STREAMS| == 22;
    if cfg.maxFrame >= 22 {
      forall steps | Run(Start(cfg), steps).Some? && AllModest(cfg.maxFrame, steps)
        ensures !Faulted(Run(Start(cfg), steps).value)
      {
        NoFault(cfg, steps, Client);
        NoFault(cfg, steps, Server);
      }
    } else {
      var k := Min(cfg.maxStreams, MAX_OPENS);
      var a, full := Fill(cfg, k, cfg.maxStreams - k);
      var b := RefusalFaults(cfg, full, k, cfg.maxStreams - k);
      RunConcat(Start(cfg), a, b);
      assert AllModest(cfg.maxFrame, a + b);
      assert Faulted(Run(Start(cfg), a + b).value);
    }
  }

  // A write that races a close

  /** One stream, open at both ends, and nothing under way. */
  ghost predicate Fresh(cfg: Config, sys: Sys, hand: seq<Task>) {
    && sys.c.sess.cfg == cfg.(isClient := true) && sys.s.sess.cfg == cfg.(isClient := false)
    && sys.c.Live() && sys.s.Live() && sys.cs == [] && sys.sc == []
    && sys.c.hand == hand && sys.s.hand == [] && sys.c.reader.Done? && sys.s.reader.Done?
    && sys.c.sess.registered == {1} && sys.s.sess.registered == {1}
    && sys.c.sess.streams == map[1 := NewStream(cfg.window, [])]
    && sys.s.sess.streams == map[1 := NewStream(cfg.window, [])]
    && sys.c.held == {1} && sys.s.late == map[] && sys.s.sess.pending == {}
  }

  lemma ServerAccepts(cfg: Config, sys: Sys)
    requires cfg.Valid() && sys.cs == [Frame(OPEN_STREAM, 1, [])] && sys.sc == []
    requires sys.s == NewEndpoint(cfg.(isClient := false))
    ensures var steps := [Incoming(Server), Local(Server, OpReader(false)), Local(Server, OpReader(false))];
            Run(sys, steps).Some? &&
            (var end := Run(sys, steps).value;
             && end.c == sys.c && end.cs == [] && end.sc == [OkFrame(1)] && end.s.Live() && end.s.reader.Done?
             && end.s.sess.streams == map[1 := NewStream(cfg.window, [])] && end.s.sess.registered == {1}
             && end.s.hand == [] && end.s.late == map[] && end.s.sess.pending == {} && end.s.sess.cfg == cfg.(isClient := false))
  {
    var a, b := Incoming(Server), Local(Server, OpReader(false));
    var s1 := Take(sys, a);
    assert s1.s.reader == Emit(OkFrame(1), Enqueue(1)) && s1.sc == [];
    assert [a, b, b][1..] == [b, b];
    RunTwo(s1, b, b);
  }

  lemma ClientHearsOk(cfg: Config, sys: Sys)
    requires cfg.Valid() && CanReceive(sys.c) && sys.sc == [OkFrame(1)] && sys.c.sess.cfg == cfg.(isClient := true)
    requires 1 in sys.c.sess.pending && sys.c.sess.opening == map[1 := None]
    ensures var steps := [Incoming(Client), Local(Client, OpOpenReturn(1))];
            Run(sys, steps).Some? &&
            (var end := Run(sys, steps).value;
             && end.s == sys.s && end.sc == [] && end.cs == sys.cs && end.c.held == sys.c.held + {1}
             && end.c.sess.streams == sys.c.sess.streams && end.c.sess.registered == sys.c.sess.registered
             && end.c.hand == sys.c.hand && end.c.Live() && end.c.reader.Done? && end.c.sess.cfg == sys.c.sess.cfg)
  {
    var a, b := Incoming(Client), Local(Client, OpOpenReturn(1));
    assert Take(sys, a).c.sess.opening[1] == Some(REASON_OK);
    RunTwo(sys, a, b);
  }

  lemma Handshake(cfg: Config) returns (steps: seq<Step>)
    requires cfg.Valid()
    ensures Run(Start(cfg), steps).Some? && Fresh(cfg, Run(Start(cfg), steps).value, [Done])
  {
    var sys := Start(cfg);
    var open := [Local(Client, OpOpen([])), Local(Client, OpPerform(0, false))];
    assert Take(sys, open[0]).c.hand == [Emit(Frame(OPEN_STREAM, 1, []), Done)];
    RunTwo(sys, open[0], open[1]);
    var asked := Run(sys, open).value;
    var accept := [Incoming(Server), Local(Server, OpReader(false)), Local(Server, OpReader(false))];
    ServerAccepts(cfg, asked);
    var accepted := Run(asked, accept).value;
    var hear := [Incoming(Client), Local(Client, OpOpenReturn(1))];
    ClientHearsOk(cfg, accepted);
    RunConcat(sys, open, accept);
    RunConcat(sys, open + accept, hear);
    steps := open + accept + hear;
  }

  /** The writer takes credit for a byte, and another caller closes the stream before it is sent. */
  lemma CloseBeforeSend(cfg: Config, sys: Sys)
    requires cfg.Valid() && Fresh(cfg, sys, [Done])
    ensures var steps := [Local(Client, OpWrite(1, [7])), Local(Client, OpClose(1, []))];
            Run(sys, steps).Some? &&
            (var end := Run(sys, steps).value;
             && end.cs == [] && end.sc == [] && end.s == sys.s && end.c.sess.registered == {1}
             && end.c.hand == [Done, Emit(DataFrame(1, [7]), Done), Emit(CloseFrame(1, []), CheckRetire(1))]
             && end.c.Has(1) && !end.c.sess.streams[1].reset)
  {
    assert [7][..1] == [7];
    var w, x := Local(Client, OpWrite(1, [7])), Local(Client, OpClose(1, []));
    RunTwo(sys, w, x);
  }

  /** The close is sent first. */
  lemma CloseOvertakes(sys: Sys)
    requires sys.cs == [] && |sys.c.hand| == 3
    requires sys.c.hand[1] == Emit(DataFrame(1, [7]), Done)
    requires sys.c.hand[2] == Emit(CloseFrame(1, []), CheckRetire(1))
    ensures var steps := [Local(Client, OpPerform(2, false)), Local(Client, OpPerform(1, false))];
            Run(sys, steps).Some? &&
            (var end := Run(sys, steps).value;
             && end.cs == [CloseFrame(1, []), DataFrame(1, [7])] && end.sc == sys.sc
             && end.s == sys.s && end.c.sess == sys.c.sess)
  {
    RunTwo(sys, Local(Client, OpPerform(2, false)), Local(Client, OpPerform(1, false)));
  }

  lemma CloseArrives(cfg: Config, e: Endpoint)
    requires CanReceive(e) && e.sess.cfg == cfg && cfg.Valid() && e.sess.pending == {}
    requires e.sess.registered == {1} && e.sess.streams == map[1 := NewStream(cfg.window, [])] && e.late == map[]
    ensures var e' := Arrive(e, CloseFrame(1, []));
            && e'.reader == CheckRetire(1) && e'.late == map[] && e'.Live() && e'.sess.cfg == cfg
            && e'.sess.registered == {1} && e'.sess.streams == map[1 := NewStream(cfg.window, []).(remoteClosed := true)]
  {
  }

  lemma LateByteArrives(cfg: Config, e: Endpoint)
    requires CanReceive(e) && e.sess.cfg == cfg && cfg.Valid() && e.late == map[]
    requires e.sess.registered == {1} && e.sess.streams == map[1 := NewStream(cfg.window, []).(remoteClosed := true)]
    ensures var e' := Arrive(e, DataFrame(1, [7]));
            e'.sess.registered == {1} && e'.Late(1) == 1 && e'.Has(1) && !e'.sess.streams[1].reset
  {
  }

  /** The server takes the close, then drops the byte. */
  lemma ByteComesLate(cfg: Config, sys: Sys) returns (steps: seq<Step>)
    requires cfg.Valid() && sys.cs == [CloseFrame(1, []), DataFrame(1, [7])]
    requires CanReceive(sys.s) && sys.s.sess.cfg == cfg.(isClient := false)
    requires sys.s.sess.registered == {1} && sys.s.sess.streams == map[1 := NewStream(cfg.window, [])]
    requires sys.s.late == map[] && sys.s.sess.pending == {}
    ensures Run(sys, steps).Some?
    ensures var end := Run(sys, steps).value;
            && end.c == sys.c && end.s.sess.registered == {1} && end.s.Late(1) == 1
            && end.s.Has(1) && !end.s.sess.streams[1].reset
  {
    var server := cfg.(isClient := false);
    var a, b := Incoming(Server), Local(Server, OpReader(false));
    var e1 := Arrive(sys.s, CloseFrame(1, []));
    CloseArrives(server, sys.s);
    var s1 := sys.(s := e1, cs := [DataFrame(1, [7])]);
    assert Take(sys, a) == s1;
    var e2 := e1.(reader := Done);
    var s2 := s1.(s := e2);
    assert ActReader(e1, false) == (e2, []);
    assert Take(s1, b) == s2;
    LateByteArrives(server, e2);
    assert Take(s2, a) == s2.(s := Arrive(e2, DataFrame(1, [7])), cs := []);
    RunThree(sys, a, b, a);
    steps := [a, b, a];
  }

  /** When a Write races a Close on the same stream, the byte sent after the close is dropped, and its
      credit with it: whatever the limits, there is a run after which a stream in both tables, aborted at
      neither end, holds less than the initial window. */
  lemma RaceLosesCredit(cfg: Config) returns (steps: seq<Step>)
    requires cfg.Valid()
    ensures Run(Start(cfg), steps).Some?
    ensures var sys := Run(Start(cfg), steps).value;
            && 1 in sys.c.sess.registered && 1 in sys.s.sess.registered && sys.c.Has(1) && sys.s.Has(1)
            && !sys.c.sess.streams[1].reset && !sys.s.sess.streams[1].reset
            && CreditSum(sys, Client, 1) == cfg.window - 1
  {
    var a := Handshake(cfg);
    var sys := Run(Start(cfg), a).value;
    var b := [Local(Client, OpWrite(1, [7])), Local(Client, OpClose(1, []))];
    CloseBeforeSend(cfg, sys);
    var closed := Run(sys, b).value;
    var c := [Local(Client, OpPerform(2, false)), Local(Client, OpPerform(1, false))];
    CloseOvertakes(closed);
    var d := ByteComesLate(cfg, Run(closed, c).value);
    RunConcat(Start(cfg), a, b);
    RunConcat(Start(cfg), a + b, c);
    RunConcat(Start(cfg), a + b + c, d);
    steps := a + b + c + d;
    CreditConserved(cfg, steps, Client, 1);
  }
}
