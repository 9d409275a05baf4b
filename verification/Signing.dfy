/** Signing a grant and verifying it. The signature scheme, Ed25519 in the original (sections 5.1.6 and
    5.1.7 of RFC 8032), is a pair of functions. */
module Signing {
  import opened Bytes
  import opened Strings
  import opened Grants

  datatype KeyPair = KeyPair(sign: seq<byte> -> seq<byte>, check: (seq<byte>, seq<byte>) -> bool)

  /** What signing makes, checking accepts. */
  ghost predicate Correct(k: KeyPair) {
    forall m :: |k.sign(m)| == SIGNATURE_SIZE && k.check(m, k.sign(m))
  }

  /** A version of zero stands for the current one; times are cut to the second before signing. */
  function Sign(g: Grant, k: KeyPair): Outcome<SignedGrant> {
    var g := if g.version == 0 then g.(version := GRANT_VERSION) else g;
    if g.version != GRANT_VERSION then Err(Version)
    else if g.expiresAt - g.issuedAt > MAX_GRANT_TTL then Err(TtlTooLong)
    else if g.deviceID == [] || g.resourceID == [] || g.grantID == [] then Err(Malformed)
    else Ok(SignedGrant(Floored(g), k.sign(Canonical(Floored(g)))))
  }

  /** None accepts. An empty `deviceID` skips the device check. */
  function Verify(s: SignedGrant, k: KeyPair, now: Instant, deviceID: Text): Option<Failure> {
    var g := s.grant;
    if g.version != GRANT_VERSION then Some(Version)
    else if |s.signature| != SIGNATURE_SIZE then Some(Signature)
    else if !k.check(Canonical(g), s.signature) then Some(Signature)
    else if g.expiresAt - g.issuedAt > MAX_GRANT_TTL then Some(TtlTooLong)
    else if now + CLOCK_SKEW < g.issuedAt then Some(NotYetValid)
    else if now - CLOCK_SKEW > g.expiresAt then Some(Expired)
    else if deviceID != [] && g.deviceID != deviceID then Some(DeviceMismatch)
    else None
  }

  function Remaining(s: SignedGrant, now: Instant): nat {
    if s.grant.expiresAt < now then 0 else s.grant.expiresAt - now
  }

  function ReasonForGrant(f: Option<Failure>): seq<byte> {
    match f
    case None => Ascii("ok")
    case Some(Expired) => Ascii("grant_expired")
    case Some(NotYetValid) => Ascii("grant_not_yet_valid")
    case Some(DeviceMismatch) => Ascii("grant_device_mismatch")
    case Some(_) => Ascii("grant_invalid_signature")
  }

  predicate Unspecific(f: Failure) {
    f.Malformed? || f.Version? || f.Signature? || f.TtlTooLong?
  }

  /** The reason is ok exactly when there was no failure, and tells two failures apart exactly when one of them
      is about time or device: a bad grant does not say which field gave it away. */
  lemma ReasonsTellApart(f: Option<Failure>, g: Option<Failure>)
    ensures ReasonForGrant(f) == Ascii("ok") <==> f.None?
    ensures ReasonForGrant(f) == ReasonForGrant(g) <==>
            f == g || (f.Some? && g.Some? && Unspecific(f.value) && Unspecific(g.value))
  {
    assert |Ascii("ok")| == 2 && |Ascii("grant_expired")| == 13 && |Ascii("grant_not_yet_valid")| == 19;
    assert |Ascii("grant_device_mismatch")| == 21 && |Ascii("grant_invalid_signature")| == 23;
  }

  lemma TruncateBounds(t: Instant)
    ensures t - SECOND < Truncate(t) <= t && Truncate(Truncate(t)) == Truncate(t)
  {
  }

  lemma TruncateWhole(t: Instant)
    ensures Unix(Truncate(t)) * SECOND == Truncate(t)
  {
    assert Unix(Truncate(t)) == Unix(t);
  }

  /** Cutting both ends to the second cannot stretch a lifetime past a whole number of seconds. */
  lemma TruncateKeepsTtl(from: Instant, to: Instant, seconds: nat)
    requires to - from <= seconds * SECOND
    ensures Truncate(to) - Truncate(from) <= seconds * SECOND
  {
    assert Unix(to) <= Unix(from + seconds * SECOND) == Unix(from) + seconds;
  }

  lemma SignedShape(g: Grant, k: KeyPair)
    requires Sign(g, k).Ok?
    ensures var s := Sign(g, k).value.grant;
            && s.version == GRANT_VERSION && s.Ids() == g.Ids() && s.maxBytes == g.maxBytes
            && s.issuedAt == Truncate(g.issuedAt) && s.expiresAt == Truncate(g.expiresAt)
            && s.expiresAt - s.issuedAt <= MAX_GRANT_TTL
  {
    TruncateKeepsTtl(g.issuedAt, g.expiresAt, 30 * 60);
  }

  /** Every grant that Sign accepts, presented to its own device (or with no device named), verifies at
      exactly the instants from 30 s before its issue to 30 s after its expiry, and is otherwise refused as
      not yet valid or as expired. */
  lemma SignedVerifiesExactlyInItsWindow(g: Grant, k: KeyPair, now: Instant, deviceID: Text)
    requires Correct(k) && Sign(g, k).Ok? && (deviceID == [] || deviceID == g.deviceID)
    ensures var s := Sign(g, k).value;
            Verify(s, k, now, deviceID) ==
            if now < s.grant.issuedAt - CLOCK_SKEW then Some(NotYetValid)
            else if now > s.grant.expiresAt + CLOCK_SKEW then Some(Expired)
            else None
  {
    SignedShape(g, k);
    var s := Sign(g, k).value;
    assert k.check(Canonical(s.grant), s.signature);
    assert s.grant.Ids()[4] == g.Ids()[4];
  }

  /** In terms of the times asked for: it verifies from 30 s before the issue asked for, never later than 30 s
      after the expiry asked for, and up to that very instant exactly when the expiry is a whole second. */
  lemma SignedWindowAsAsked(g: Grant, k: KeyPair, now: Instant)
    requires Correct(k) && Sign(g, k).Ok?
    ensures var s := Sign(g, k).value;
            && (g.issuedAt - CLOCK_SKEW <= now <= g.expiresAt - SECOND + CLOCK_SKEW ==>
                  Verify(s, k, now, g.deviceID) == None)
            && (now > g.expiresAt + CLOCK_SKEW ==> Verify(s, k, now, g.deviceID) != None)
            && (now == g.expiresAt + CLOCK_SKEW && g.issuedAt <= g.expiresAt ==>
                  (Verify(s, k, now, g.deviceID) == None <==> g.expiresAt % SECOND == 0))
  {
    SignedVerifiesExactlyInItsWindow(g, k, now, g.deviceID);
    SignedShape(g, k);
    TruncateBounds(g.issuedAt);
    TruncateBounds(g.expiresAt);
  }

  /** Nothing is lost on the way: what arrives is what was signed, so it verifies there as it would here. */
  lemma SignedSurvivesTheWire(g: Grant, k: KeyPair)
    requires Correct(k) && Sign(g, k).Ok?
    requires Short(g.Ids()) && Int64(Unix(g.issuedAt)) && Int64(Unix(g.expiresAt))
    ensures DecodeGrant(Encode(Sign(g, k).value)) == Ok(Sign(g, k).value)
  {
    SignedShape(g, k);
    FlooredSame(g);
    DecodesWhatWasEncoded(Sign(g, k).value);
  }

  /** No grant, however it was made, is accepted at two instants more than the ceiling and two skews apart. */
  lemma AcceptanceIsShort(s: SignedGrant, k: KeyPair, t1: Instant, d1: Text, t2: Instant, d2: Text)
    requires Verify(s, k, t1, d1) == None && Verify(s, k, t2, d2) == None
    ensures t2 - t1 <= MAX_GRANT_TTL + 2 * CLOCK_SKEW
  {
  }

  /** An accepted grant bounds the session it opens: at most the ceiling and one skew remain, and nothing
      remains exactly from its expiry on. */
  lemma RemainingIsShort(s: SignedGrant, k: KeyPair, now: Instant, deviceID: Text)
    requires Verify(s, k, now, deviceID) == None
    ensures Remaining(s, now) <= MAX_GRANT_TTL + CLOCK_SKEW
    ensures Remaining(s, now) == 0 <==> now >= s.grant.expiresAt
  {
  }
}
