/** Signed grants: the canonical encoding, its decoder, signing and verifying. */
module Grants {
  import opened Bytes
  import opened Strings

  /** Nanoseconds since the Unix epoch. */
  type Instant = int

  const SECOND: nat := 1_000_000_000
  const GRANT_VERSION: byte := 1
  const SIGNATURE_SIZE: nat := 64
  const MAX_GRANT_TTL: nat := 30 * 60 * SECOND
  const CLOCK_SKEW: nat := 30 * SECOND

  /** How many identifiers a grant carries. */
  function IdCount(): nat { 6 }

  datatype Grant = Grant(
    version: byte,
    keyID: Text,
    grantID: Text,
    orgID: Text,
    userID: Text,
    deviceID: Text,
    resourceID: Text,
    issuedAt: Instant,
    expiresAt: Instant,
    maxBytes: uint64)
  {
    function Ids(): (ids: seq<Text>)
      ensures |ids| == 6
    {
      [keyID, grantID, orgID, userID, deviceID, resourceID]
    }
  }

  datatype SignedGrant = SignedGrant(grant: Grant, signature: seq<byte>)

  datatype Failure = Malformed | Version | Signature | TtlTooLong | NotYetValid | Expired | DeviceMismatch

  datatype Outcome<+T> = Ok(value: T) | Err(failure: Failure)

  // Times

  /** Seconds since the epoch, rounded down, also before it. */
  function Unix(t: Instant): int {
    t / SECOND
  }

  function Truncate(t: Instant): Instant {
    t / SECOND * SECOND
  }

  /** `uint64` of an `int64`, and back. */
  function ToUint64(x: int): uint64 {
    x % 0x1_0000_0000_0000_0000
  }

  function ToInt64(x: uint64): int {
    if x < 0x8000_0000_0000_0000 then x else x - 0x1_0000_0000_0000_0000
  }

  predicate Int64(x: int) {
    -0x8000_0000_0000_0000 <= x < 0x8000_0000_0000_0000
  }

  /** Whether the encoding can represent an instant without loss. */
  predicate WholeSecond(t: Instant) {
    t % SECOND == 0 && Int64(Unix(t))
  }

  lemma ToInt64RoundTrip(x: int)
    requires Int64(x)
    ensures ToInt64(ToUint64(x)) == x
  {
    if x < 0 {
      assert ToUint64(x) == x + 0x1_0000_0000_0000_0000;
    }
  }

  lemma ToUint64RoundTrip(x: uint64)
    ensures Int64(ToInt64(x)) && ToUint64(ToInt64(x)) == x
  {
  }

  // The encoding

  function Numbers(g: Grant): (b: seq<byte>)
    ensures |b| == 24
  {
    BigEndian(Width64(), ToUint64(Unix(g.issuedAt))) + BigEndian(Width64(), ToUint64(Unix(g.expiresAt))) + BigEndian(Width64(), g.maxBytes)
  }

  function Layout(version: byte, ids: seq<Text>, numbers: seq<byte>): seq<byte> {
    [version] + AppendAll(ids) + numbers
  }

  /** The bytes that are signed. */
  function Canonical(g: Grant): seq<byte> {
    Layout(g.version, g.Ids(), Numbers(g))
  }

  function Encode(s: SignedGrant): seq<byte> {
    Canonical(s.grant) + s.signature
  }

  function InstantAt(b: seq<byte>): Instant
    requires |b| == 8
  {
    ToInt64(Uint64At(b)) * SECOND
  }

  function GrantOf(version: byte, ids: seq<Text>, numbers: seq<byte>): Grant
    requires |ids| == 6 && |numbers| == 24
  {
    Grant(version, ids[0], ids[1], ids[2], ids[3], ids[4], ids[5],
          InstantAt(numbers[..8]), InstantAt(numbers[8..16]), Uint64At(numbers[16..]))
  }

  function DecodeBody(body: seq<byte>): Outcome<Grant>
    requires |body| > 0
  {
    if body[0] != GRANT_VERSION then Err(Version)
    else
      var taken := TakeAll(body[1..], IdCount());
      if taken.None? then Err(Malformed)
      else if |taken.value.1| != 24 then Err(Malformed)
      else Ok(GrantOf(body[0], taken.value.0, taken.value.1))
  }

  /** The signature is the last 64 bytes. Nothing is verified. */
  function DecodeGrant(b: seq<byte>): Outcome<SignedGrant> {
    if |b| < SIGNATURE_SIZE + 1 then Err(Malformed)
    else
      var n := |b| - SIGNATURE_SIZE;
      match DecodeBody(b[..n])
      case Err(e) => Err(e)
      case Ok(g) => Ok(SignedGrant(g, b[n..]))
  }

  /** What the wire format can carry. */
  predicate Transmissible(s: SignedGrant) {
    && s.grant.version == GRANT_VERSION
    && Short(s.grant.Ids())
    && WholeSecond(s.grant.issuedAt) && WholeSecond(s.grant.expiresAt)
    && |s.signature| == SIGNATURE_SIZE
  }

  lemma NumbersRead(g: Grant)
    requires WholeSecond(g.issuedAt) && WholeSecond(g.expiresAt)
    ensures InstantAt(Numbers(g)[..8]) == g.issuedAt
    ensures InstantAt(Numbers(g)[8..16]) == g.expiresAt
    ensures Uint64At(Numbers(g)[16..]) == g.maxBytes
  {
    Widths();
    var b := Numbers(g);
    assert b[..8] == BigEndian(Width64(), ToUint64(Unix(g.issuedAt)));
    assert b[8..16] == BigEndian(Width64(), ToUint64(Unix(g.expiresAt)));
    assert b[16..] == BigEndian(Width64(), g.maxBytes);
    ReadsWhatWasWritten(8, ToUint64(Unix(g.issuedAt)));
    ReadsWhatWasWritten(8, ToUint64(Unix(g.expiresAt)));
    ReadsWhatWasWritten(8, g.maxBytes);
    ToInt64RoundTrip(Unix(g.issuedAt));
    ToInt64RoundTrip(Unix(g.expiresAt));
  }

  lemma InstantReencodes(b: seq<byte>)
    requires |b| == 8
    ensures WholeSecond(InstantAt(b)) && BigEndian(Width64(), ToUint64(Unix(InstantAt(b)))) == b
  {
    var x := Uint64At(b);
    ToUint64RoundTrip(x);
    assert Unix(InstantAt(b)) == ToInt64(x);
  }

  lemma LayoutReads(ids: seq<Text>, numbers: seq<byte>)
    requires |ids| == 6 && Short(ids) && |numbers| == 24
    ensures DecodeBody(Layout(GRANT_VERSION, ids, numbers)) == Ok(GrantOf(GRANT_VERSION, ids, numbers))
  {
    assert Layout(GRANT_VERSION, ids, numbers)[1..] == AppendAll(ids) + numbers;
    TakesAllThatWasAppended(ids, numbers);
  }

  lemma TakenParts(b: seq<byte>, n: nat) returns (ss: seq<Text>, rest: seq<byte>)
    requires TakeAll(b, n).Some?
    ensures |ss| == n && Short(ss) && b == AppendAll(ss) + rest && TakeAll(b, n) == Some((ss, rest))
  {
    AllTakenReencodes(b, n);
    ss, rest := TakeAll(b, n).value.0, TakeAll(b, n).value.1;
  }

  lemma HeadAndTail(body: seq<byte>, x: seq<byte>, y: seq<byte>)
    requires body != [] && body[1..] == x + y
    ensures body == [body[0]] + x + y
  {
    assert body == [body[0]] + body[1..];
  }

  lemma LayoutReencodes(body: seq<byte>) returns (ids: seq<Text>, numbers: seq<byte>)
    requires |body| > 0 && DecodeBody(body).Ok?
    ensures |ids| == 6 && Short(ids) && |numbers| == 24
    ensures body == Layout(GRANT_VERSION, ids, numbers) && DecodeBody(body).value == GrantOf(GRANT_VERSION, ids, numbers)
  {
    ids, numbers := TakenParts(body[1..], IdCount());
    HeadAndTail(body, AppendAll(ids), numbers);
  }

  lemma GrantOfParts(g: Grant)
    requires WholeSecond(g.issuedAt) && WholeSecond(g.expiresAt)
    ensures GrantOf(g.version, g.Ids(), Numbers(g)) == g
  {
    NumbersRead(g);
  }

  lemma PartsOfGrant(version: byte, ids: seq<Text>, numbers: seq<byte>)
    requires |ids| == 6 && |numbers| == 24
    ensures var g := GrantOf(version, ids, numbers);
            g.Ids() == ids && Numbers(g) == numbers && WholeSecond(g.issuedAt) && WholeSecond(g.expiresAt)
  {
    InstantReencodes(numbers[..8]);
    InstantReencodes(numbers[8..16]);
    assert numbers == numbers[..8] + numbers[8..16] + numbers[16..];
  }

  lemma DecodesWhatWasEncoded(s: SignedGrant)
    requires Transmissible(s)
    ensures DecodeGrant(Encode(s)) == Ok(s)
  {
    var b := Encode(s);
    assert b[..|b| - SIGNATURE_SIZE] == Canonical(s.grant) && b[|b| - SIGNATURE_SIZE..] == s.signature;
    LayoutReads(s.grant.Ids(), Numbers(s.grant));
    GrantOfParts(s.grant);
  }

  /** Every byte string the decoder accepts is the encoding of what it is read as, so a signature checked
      over the canonical bytes is checked over exactly the bytes received. */
  lemma AcceptedGrantReencodes(b: seq<byte>)
    requires DecodeGrant(b).Ok?
    ensures var s := DecodeGrant(b).value;
            Transmissible(s) && Encode(s) == b && Canonical(s.grant) == b[..|b| - SIGNATURE_SIZE]
  {
    var n := |b| - SIGNATURE_SIZE;
    var ids, numbers := LayoutReencodes(b[..n]);
    PartsOfGrant(GRANT_VERSION, ids, numbers);
    assert b == b[..n] + b[n..];
  }

  /** Decoding undoes encoding exactly for the grants the format can carry. */
  lemma GrantRoundTrip(s: SignedGrant)
    ensures DecodeGrant(Encode(s)) == Ok(s) <==> Transmissible(s)
  {
    if Transmissible(s) {
      DecodesWhatWasEncoded(s);
    } else if DecodeGrant(Encode(s)) == Ok(s) {
      AcceptedGrantReencodes(Encode(s));
    }
  }

  /** The decoder accepts exactly the encodings of those grants. */
  lemma AcceptsExactlyEncodings(b: seq<byte>)
    ensures DecodeGrant(b).Ok? <==> exists s :: Transmissible(s) && Encode(s) == b
  {
    if DecodeGrant(b).Ok? {
      AcceptedGrantReencodes(b);
    }
    if s :| Transmissible(s) && Encode(s) == b {
      DecodesWhatWasEncoded(s);
    }
  }

  /** The decoder, with its loop over the six identifiers. */
  method Decode(b: seq<byte>) returns (r: Outcome<SignedGrant>)
    ensures r == DecodeGrant(b)
  {
    if |b| < SIGNATURE_SIZE + 1 {
      return Err(Malformed);
    }
    var body, sig := b[..|b| - SIGNATURE_SIZE], b[|b| - SIGNATURE_SIZE..];
    if body[0] != GRANT_VERSION {
      return Err(Version);
    }
    var taken := TakeFields(body[1..], IdCount());
    if taken.None? || |taken.value.1| != 24 {
      return Err(Malformed);
    }
    return Ok(SignedGrant(GrantOf(body[0], taken.value.0, taken.value.1), sig));
  }

  // One-to-one

  /** The grant as the signature sees it. */
  function Floored(g: Grant): Grant {
    g.(issuedAt := Truncate(g.issuedAt), expiresAt := Truncate(g.expiresAt))
  }

  predicate Addressable(g: Grant) {
    && (forall id <- g.Ids() :: |id| < 0x1_0000)
    && Int64(Unix(g.issuedAt)) && Int64(Unix(g.expiresAt))
  }

  lemma FlooredSame(g: Grant)
    ensures Floored(g).Ids() == g.Ids() && Numbers(Floored(g)) == Numbers(g) && Canonical(Floored(g)) == Canonical(g)
    ensures Int64(Unix(g.issuedAt)) ==> WholeSecond(Truncate(g.issuedAt))
    ensures Int64(Unix(g.expiresAt)) ==> WholeSecond(Truncate(g.expiresAt))
  {
    assert Unix(Truncate(g.issuedAt)) == Unix(g.issuedAt);
    assert Unix(Truncate(g.expiresAt)) == Unix(g.expiresAt);
    assert Floored(g).Ids() == g.Ids();
  }

  lemma LayoutInjective(v: byte, ids: seq<Text>, n: seq<byte>, v': byte, ids': seq<Text>, n': seq<byte>)
    requires |ids| == |ids'| && (forall id <- ids :: |id| < 0x1_0000) && (forall id <- ids' :: |id| < 0x1_0000)
    requires Layout(v, ids, n) == Layout(v', ids', n')
    ensures v == v' && ids == ids' && n == n'
  {
    var a, b := Layout(v, ids, n), Layout(v', ids', n');
    assert a[0] == v && b[0] == v';
    assert a[1..] == AppendAll(ids) + n && b[1..] == AppendAll(ids') + n';
    AppendAllInjective(ids, n, ids', n');
  }

  /** Two grants have the same canonical bytes exactly when they agree on every field, times to the second,
      for identifiers under 65536 bytes. */
  lemma CanonicalInjective(g: Grant, h: Grant)
    requires Addressable(g) && Addressable(h)
    ensures Canonical(g) == Canonical(h) <==> Floored(g) == Floored(h)
  {
    FlooredSame(g);
    FlooredSame(h);
    if Canonical(g) == Canonical(h) {
      LayoutInjective(g.version, g.Ids(), Numbers(g), h.version, h.Ids(), Numbers(h));
      GrantOfParts(Floored(g));
      GrantOfParts(Floored(h));
    }
  }

  function Zeros(n: nat): (z: seq<byte>)
    ensures |z| == n && forall i | 0 <= i < n :: z[i] == 0
  {
    seq(n, _ => 0)
  }

  const BLANK := Grant(GRANT_VERSION, [], [], [], [], [], [], 0, 0, 0)

  /** At 65536 bytes the prefix wraps to zero, and a long identifier can no longer be told from two. */
  lemma LongIdentifiersCollide()
    ensures var g, h := BLANK.(keyID := Zeros(0x1_0000)), BLANK.(grantID := Zeros(0x1_0000));
            Canonical(g) == Canonical(h) && Floored(g) != Floored(h)
  {
    var z := Zeros(0x1_0000);
    var g, h := BLANK.(keyID := z), BLANK.(grantID := z);
    var tail: seq<Text> := [[], [], [], []];
    assert BigEndian(2, 0x1_0000) == BigEndian(2, 0) == [0, 0];
    assert AppendString(z) + AppendString([]) == AppendString([]) + AppendString(z);
    AppendTwo(z, [], tail);
    AppendTwo([], z, tail);
    assert g.Ids() == [z, []] + tail && h.Ids() == [[], z] + tail;
    assert |g.keyID| != |h.keyID|;
  }

  lemma AppendTwo(s: Text, t: Text, ss: seq<Text>)
    ensures AppendAll([s, t] + ss) == AppendString(s) + AppendString(t) + AppendAll(ss)
  {
    assert ([s, t] + ss)[1..] == [t] + ss;
    assert ([t] + ss)[1..] == ss;
    assert AppendAll([t] + ss) == AppendString(t) + AppendAll(ss);
  }

  predicate IdsWithin(g: Grant, n: nat) {
    (forall id <- g.Ids() :: |id| <= n) && Int64(Unix(g.issuedAt)) && Int64(Unix(g.expiresAt))
  }

  /** A bound on identifiers makes the canonical bytes tell all grants apart exactly when it is below 65536. */
  lemma InjectiveExactlyBelow(n: nat)
    ensures n < 0x1_0000 <==>
            forall g, h | IdsWithin(g, n) && IdsWithin(h, n) && Canonical(g) == Canonical(h) :: Floored(g) == Floored(h)
  {
    if n < 0x1_0000 {
      forall g, h | IdsWithin(g, n) && IdsWithin(h, n) && Canonical(g) == Canonical(h) ensures Floored(g) == Floored(h) {
        CanonicalInjective(g, h);
      }
    } else {
      LongIdentifiersCollide();
      var g, h := BLANK.(keyID := Zeros(0x1_0000)), BLANK.(grantID := Zeros(0x1_0000));
      assert IdsWithin(g, n) && IdsWithin(h, n);
    }
  }
}
