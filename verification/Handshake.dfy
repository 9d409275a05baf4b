/** Length-prefixed strings, and the handshake payloads built from them. */
module Strings {
  import opened Bytes

  type Text = seq<byte>

  const MAX_IDENTITY_LEN: nat := 128

  /** The prefix is `uint16(len(s))`: it keeps the low two bytes of the length. */
  function AppendString(s: Text): (b: seq<byte>)
    ensures |b| == 2 + |s|
  {
    BigEndian(2, |s|) + s
  }

  /** None when the prefix is cut short, announces too much, or more than there is. */
  function TakeString(b: seq<byte>): (r: Option<(Text, seq<byte>)>)
    ensures r.Some? ==> |r.value.0| <= MAX_IDENTITY_LEN && |b| == 2 + |r.value.0| + |r.value.1|
  {
    if |b| < 2 then None
    else
      var n := FromBigEndian(b[..2]);
      if n > MAX_IDENTITY_LEN then None
      else if |b| < 2 + n then None
      else Some((b[2..2 + n], b[2 + n..]))
  }

  function AppendAll(ss: seq<Text>): seq<byte> {
    if ss == [] then [] else AppendString(ss[0]) + AppendAll(ss[1..])
  }

  type Taken = Option<(seq<Text>, seq<byte>)>

  function Prepend(ss: seq<Text>, r: Taken): Taken {
    if r.None? then None else Some((ss + r.value.0, r.value.1))
  }

  function TakeAll(b: seq<byte>, n: nat): (r: Taken)
    ensures r.Some? ==> |r.value.0| == n
  {
    if n == 0 then Some(([], b))
    else
      var first := TakeString(b);
      if first.None? then None else Prepend([first.value.0], TakeAll(first.value.1, n - 1))
  }

  predicate Short(ss: seq<Text>) {
    forall s <- ss :: |s| <= MAX_IDENTITY_LEN
  }

  /** A string within the limit is read back, with whatever follows it. */
  lemma TakesWhatWasAppended(s: Text, rest: seq<byte>)
    requires |s| <= MAX_IDENTITY_LEN
    ensures TakeString(AppendString(s) + rest) == Some((s, rest))
  {
    Widths();
    ReadsWhatWasWritten(2, |s|);
    var b := AppendString(s) + rest;
    assert b[..2] == BigEndian(2, |s|);
    assert b[2..2 + |s|] == s && b[2 + |s|..] == rest;
  }

  lemma TakenReencodes(b: seq<byte>)
    requires TakeString(b).Some?
    ensures var (s, rest) := TakeString(b).value; b == AppendString(s) + rest
  {
    var (s, rest) := TakeString(b).value;
    WritesWhatWasRead(b[..2]);
    assert b == b[..2] + s + rest;
  }

  lemma AppendAllFirst(s: Text, ss: seq<Text>, rest: seq<byte>)
    ensures AppendAll([s] + ss) + rest == AppendString(s) + (AppendAll(ss) + rest)
  {
    assert ([s] + ss)[1..] == ss;
  }

  lemma TakesOneMore(s: Text, b: seq<byte>, ss: seq<Text>, rest: seq<byte>)
    requires |s| <= MAX_IDENTITY_LEN && TakeAll(b, |ss|) == Some((ss, rest))
    ensures TakeAll(AppendString(s) + b, |ss| + 1) == Some(([s] + ss, rest))
  {
    TakesWhatWasAppended(s, b);
  }

  lemma {:induction false} TakesAllThatWasAppended(ss: seq<Text>, rest: seq<byte>)
    requires Short(ss)
    ensures TakeAll(AppendAll(ss) + rest, |ss|) == Some((ss, rest))
  {
    if ss == [] {
      assert AppendAll(ss) + rest == rest;
    } else {
      TakesAllThatWasAppended(ss[1..], rest);
      TakesOneMore(ss[0], AppendAll(ss[1..]) + rest, ss[1..], rest);
      AppendAllFirst(ss[0], ss[1..], rest);
      assert [ss[0]] + ss[1..] == ss;
    }
  }

  lemma {:induction false} AllTakenReencodes(b: seq<byte>, n: nat)
    requires TakeAll(b, n).Some?
    ensures var (ss, rest) := TakeAll(b, n).value; Short(ss) && b == AppendAll(ss) + rest
  {
    if n > 0 {
      var (s, tail) := TakeString(b).value;
      TakenReencodes(b);
      AllTakenReencodes(tail, n - 1);
      var (ss, rest) := TakeAll(tail, n - 1).value;
      AppendAllFirst(s, ss, rest);
    }
  }

  /** Below 65536 bytes the prefix tells strings apart, and where they end. */
  lemma AppendInjective(s: Text, x: seq<byte>, t: Text, y: seq<byte>)
    requires |s| < 0x1_0000 && |t| < 0x1_0000 && AppendString(s) + x == AppendString(t) + y
    ensures s == t && x == y
  {
    var a, b := AppendString(s) + x, AppendString(t) + y;
    assert a[..2] == BigEndian(2, |s|) && b[..2] == BigEndian(2, |t|);
    Widths();
    ReadsWhatWasWritten(2, |s|);
    ReadsWhatWasWritten(2, |t|);
    assert a[2..2 + |s|] == s && b[2..2 + |t|] == t;
    assert a[2 + |s|..] == x && b[2 + |t|..] == y;
  }

  lemma {:induction false} AppendAllInjective(ss: seq<Text>, x: seq<byte>, ts: seq<Text>, y: seq<byte>)
    requires |ss| == |ts| && AppendAll(ss) + x == AppendAll(ts) + y
    requires forall s <- ss :: |s| < 0x1_0000
    requires forall t <- ts :: |t| < 0x1_0000
    ensures ss == ts && x == y
  {
    if ss == [] {
      assert AppendAll(ss) + x == x && AppendAll(ts) + y == y;
    } else {
      assert AppendAll(ss) + x == AppendString(ss[0]) + (AppendAll(ss[1..]) + x);
      assert AppendAll(ts) + y == AppendString(ts[0]) + (AppendAll(ts[1..]) + y);
      AppendInjective(ss[0], AppendAll(ss[1..]) + x, ts[0], AppendAll(ts[1..]) + y);
      AppendAllInjective(ss[1..], x, ts[1..], y);
      assert ss == [ss[0]] + ss[1..] && ts == [ts[0]] + ts[1..];
    }
  }

  lemma PrependTwice(ss: seq<Text>, s: Text, r: Taken)
    ensures Prepend(ss, Prepend([s], r)) == Prepend(ss + [s], r) && Prepend([], r) == r
  {
    if r.Some? {
      assert ss + ([s] + r.value.0) == ss + [s] + r.value.0 && [] + r.value.0 == r.value.0;
    }
  }

  /** Reads `n` strings one after another, as the grant decoder does with its six. */
  method TakeFields(b: seq<byte>, n: nat) returns (r: Taken)
    ensures r == TakeAll(b, n)
  {
    var fields, rest, i := [], b, 0;
    PrependTwice([], [], TakeAll(b, n));
    while i < n
      invariant i <= n && TakeAll(b, n) == Prepend(fields, TakeAll(rest, n - i))
    {
      var taken := TakeString(rest);
      if taken.None? {
        return None;
      }
      PrependTwice(fields, taken.value.0, TakeAll(taken.value.1, n - i - 1));
      fields, rest, i := fields + [taken.value.0], taken.value.1, i + 1;
    }
    assert fields + [] == fields;
    return Some((fields, rest));
  }
}

module Handshake {
  import opened Bytes
  import opened Frames
  import opened Strings
  import SessionModel

  datatype Hello = Hello(minVersion: byte, maxVersion: byte, role: byte)

  predicate KnownRole(role: byte) {
    role == 1 || role == 2
  }

  function EncodeHello(h: Hello): seq<byte> {
    [h.minVersion, h.maxVersion, h.role, 0]
  }

  function DecodeHello(b: seq<byte>): Option<Hello> {
    if |b| != 4 then None
    else
      var h := Hello(b[0], b[1], b[2]);
      if h.minVersion > h.maxVersion then None
      else if !KnownRole(h.role) then None
      else Some(h)
  }

  datatype HelloAck = HelloAck(version: byte, maxFrame: uint32, window: uint32, maxStreams: uint32)

  function EncodeHelloAck(a: HelloAck): (b: seq<byte>)
    ensures |b| == 13
  {
    [a.version] + BigEndian(4, a.maxFrame) + BigEndian(4, a.window) + BigEndian(4, a.maxStreams)
  }

  function DecodeHelloAck(b: seq<byte>): Option<HelloAck> {
    if |b| != 13 then None
    else
      var a := HelloAck(b[0], Uint32At(b[1..5]), Uint32At(b[5..9]), Uint32At(b[9..13]));
      if a.maxFrame == 0 || a.maxFrame > MAX_FRAME_PAYLOAD then None
      else if a.window == 0 then None
      else if a.maxStreams == 0 then None
      else Some(a)
  }

  datatype Auth = Auth(deviceID: Text, userID: Text, resource: Text)

  function EncodeAuth(a: Auth): seq<byte> {
    AppendAll([a.deviceID, a.userID, a.resource])
  }

  function DecodeAuth(b: seq<byte>): Option<Auth> {
    match TakeAll(b, 3)
    case None => None
    case Some((ss, rest)) => if rest != [] then None else Some(Auth(ss[0], ss[1], ss[2]))
  }

  /** A HELLO is read back exactly when its version range is not inverted and its role is known. */
  lemma HelloRoundTrip(h: Hello)
    ensures DecodeHello(EncodeHello(h)) ==
            if h.minVersion <= h.maxVersion && KnownRole(h.role) then Some(h) else None
  {
  }

  /** The reserved byte is not checked, so a HELLO it accepts need not re-encode to itself. */
  lemma HelloIgnoresTheReservedByte(b: seq<byte>)
    requires DecodeHello(b).Some?
    ensures EncodeHello(DecodeHello(b).value) == b <==> b[3] == 0
  {
  }

  /** A HELLO_ACK is read back exactly when its limits are ones a session can be started with. */
  lemma HelloAckRoundTrip(a: HelloAck, isClient: bool)
    ensures var usable := SessionModel.Config(a.maxFrame, a.window, a.maxStreams, isClient).Valid();
            DecodeHelloAck(EncodeHelloAck(a)) == if usable then Some(a) else None
  {
    Widths();
    ReadsWhatWasWritten(4, a.maxFrame);
    ReadsWhatWasWritten(4, a.window);
    ReadsWhatWasWritten(4, a.maxStreams);
    var b := EncodeHelloAck(a);
    assert b[1..5] == BigEndian(4, a.maxFrame);
    assert b[5..9] == BigEndian(4, a.window);
    assert b[9..13] == BigEndian(4, a.maxStreams);
  }

  lemma HelloAckReencodes(b: seq<byte>)
    requires DecodeHelloAck(b).Some?
    ensures EncodeHelloAck(DecodeHelloAck(b).value) == b
  {
    assert b == [b[0]] + b[1..5] + b[5..9] + b[9..13];
  }

  /** An AUTH is read back exactly when its three strings are within the limit. */
  lemma AuthRoundTrip(a: Auth)
    ensures DecodeAuth(EncodeAuth(a)) == Some(a) <==> Short([a.deviceID, a.userID, a.resource])
  {
    var ss := [a.deviceID, a.userID, a.resource];
    if Short(ss) {
      TakesAllThatWasAppended(ss, []);
      assert AppendAll(ss) + [] == AppendAll(ss);
    } else if DecodeAuth(EncodeAuth(a)) == Some(a) {
      AuthReencodes(EncodeAuth(a));
    }
  }

  /** Every AUTH accepted is the encoding of what it is read as. */
  lemma AuthReencodes(b: seq<byte>)
    requires DecodeAuth(b).Some?
    ensures EncodeAuth(DecodeAuth(b).value) == b
    ensures var a := DecodeAuth(b).value; Short([a.deviceID, a.userID, a.resource])
  {
    AllTakenReencodes(b, 3);
    var (ss, rest) := TakeAll(b, 3).value;
    assert ss == [ss[0], ss[1], ss[2]] && AppendAll(ss) + [] == AppendAll(ss);
  }
}
