/** The tables of enrollment tokens and identities. Each function is one transaction. */
module Identities {
  import opened Bytes
  import opened Strings
  import opened Grants

  datatype Key = Key(role: Text, id: Text)

  type Hash = Text
  type Serial = Text

  datatype Token = Token(key: Key, expiresAt: Instant, consumedAt: Option<Instant>)

  /** An empty `pending` means that no renewal is outstanding. */
  datatype Record = Record(serial: Serial, pending: Serial, revoked: bool)

  datatype Tables = Tables(tokens: map<Hash, Token>, identities: map<Key, Record>)

  datatype Refusal = TokenUnknown | TokenConsumed | TokenExpired | NotEnrolled | RevokedIdentity | BadRequest

  datatype Result<+T> = Success(value: T) | Failure(why: Refusal)

  /** Times are stored to the second. Writing a token that exists keeps its consumption. */
  function PutToken(t: Tables, h: Hash, tok: Token): Tables {
    var consumed := if h in t.tokens then t.tokens[h].consumedAt else tok.consumedAt;
    t.(tokens := t.tokens[h := tok.(expiresAt := Truncate(tok.expiresAt), consumedAt := consumed)])
  }

  function ConsumeToken(t: Tables, h: Hash, now: Instant): (Result<Key>, Tables) {
    if h !in t.tokens then (Failure(TokenUnknown), t)
    else if t.tokens[h].consumedAt.Some? then (Failure(TokenConsumed), t)
    else if now > t.tokens[h].expiresAt then (Failure(TokenExpired), t)
    else (Success(t.tokens[h].key), t.(tokens := t.tokens[h := t.tokens[h].(consumedAt := Some(now))]))
  }

  /** Replaces whatever was there: its serial, an outstanding renewal, a revocation. */
  function PutRecord(t: Tables, k: Key, serial: Serial): Tables {
    t.(identities := t.identities[k := Record(serial, [], false)])
  }

  function PutPending(t: Tables, k: Key, serial: Serial): (Option<Refusal>, Tables) {
    if k !in t.identities then (Some(NotEnrolled), t)
    else if t.identities[k].revoked then (Some(RevokedIdentity), t)
    else (None, t.(identities := t.identities[k := t.identities[k].(pending := serial)]))
  }

  /** Conditional on the pending serial still being this one. */
  function Promote(t: Tables, k: Key, serial: Serial): Tables {
    if k in t.identities && !t.identities[k].revoked && t.identities[k].pending == serial then
      t.(identities := t.identities[k := Record(serial, [], false)])
    else t
  }

  function Lookup(t: Tables, k: Key): Result<Record> {
    if k !in t.identities then Failure(NotEnrolled)
    else if t.identities[k].revoked then Failure(RevokedIdentity)
    else Success(t.identities[k])
  }

  function Revoke(t: Tables, k: Key): (Option<Refusal>, Tables) {
    if k !in t.identities then (Some(NotEnrolled), t)
    else (None, t.(identities := t.identities[k := t.identities[k].(revoked := true)]))
  }

  // The enrollment service

  /** A token is spent before anything can fail, so a failure burns it. `usable` says whether the request
      parses and is signed, `serial` is the new certificate's. */
  function Enroll(t: Tables, h: Hash, now: Instant, usable: bool, serial: Serial): (Result<Key>, Tables) {
    var (r, t1) := ConsumeToken(t, h, now);
    if r.Failure? then (r, t1)
    else if !usable then (Failure(BadRequest), t1)
    else (r, PutRecord(t1, r.value, serial))
  }

  /** Presenting the pending serial makes it the current one. */
  function VerifyEnrolled(t: Tables, k: Key, serial: Serial): (Option<Refusal>, Tables) {
    var r := Lookup(t, k);
    if r.Failure? then (Some(r.why), t)
    else if r.value.serial == serial then (None, t)
    else if r.value.pending != [] && r.value.pending == serial then (None, Promote(t, k, serial))
    else (Some(NotEnrolled), t)
  }

  function Renew(t: Tables, k: Key, presented: Serial, usable: bool, serial: Serial): (Option<Refusal>, Tables) {
    var (r, t1) := VerifyEnrolled(t, k, presented);
    if r.Some? then (r, t1)
    else if !usable then (Some(BadRequest), t1)
    else PutPending(t1, k, serial)
  }

  /** Whether a certificate would be accepted now. */
  predicate Accepts(t: Tables, k: Key, serial: Serial) {
    VerifyEnrolled(t, k, serial).0.None?
  }

  /** Two serials at most, the current and the pending one, and only of a live identity. */
  lemma AtMostTwoSerials(t: Tables, k: Key, a: Serial, b: Serial, c: Serial)
    requires Accepts(t, k, a) && Accepts(t, k, b) && Accepts(t, k, c)
    ensures a == b || b == c || a == c
  {
  }

  /** A successful verification leaves that certificate the only one accepted, or the current one beside an
      outstanding renewal. */
  lemma VerifiedBecomesCurrent(t: Tables, k: Key, serial: Serial)
    requires Accepts(t, k, serial)
    ensures var t' := VerifyEnrolled(t, k, serial).1;
            && k in t'.identities && !t'.identities[k].revoked && t'.identities[k].serial == serial
            && (forall s :: Accepts(t', k, s) ==> Accepts(t, k, s))
            && (t.identities[k].serial != serial ==> forall s :: Accepts(t', k, s) ==> s == serial)
  {
  }

  // The same, statement by statement

  /** What other connections do to the tables between two statements of one call. */
  type Others = Tables -> Tables

  /** The token is spent in one statement, the identity recorded in another. */
  function EnrollWith(t: Tables, h: Hash, now: Instant, usable: bool, serial: Serial, others: Others): (Result<Key>, Tables) {
    var (r, t1) := ConsumeToken(t, h, now);
    if r.Failure? then (r, t1)
    else if !usable then (Failure(BadRequest), others(t1))
    else (r, PutRecord(others(t1), r.value, serial))
  }

  /** The lookup and the promotion are two statements. */
  function VerifyWith(t: Tables, k: Key, serial: Serial, others: Others): (Option<Refusal>, Tables) {
    var r, t1 := Lookup(t, k), others(t);
    if r.Failure? then (Some(r.why), t1)
    else if r.value.serial == serial then (None, t1)
    else if r.value.pending != [] && r.value.pending == serial then (None, Promote(t1, k, serial))
    else (Some(NotEnrolled), t1)
  }

  /** And the recording of the new serial is a third. */
  function RenewWith(t: Tables, k: Key, presented: Serial, usable: bool, serial: Serial, first: Others, second: Others)
    : (Option<Refusal>, Tables)
  {
    var (r, t1) := VerifyWith(t, k, presented, first);
    if r.Some? then (r, t1)
    else if !usable then (Some(BadRequest), second(t1))
    else PutPending(second(t1), k, serial)
  }

  /** Undisturbed, the statements make up the transactions. */
  lemma Undisturbed(t: Tables, h: Hash, now: Instant, k: Key, presented: Serial, usable: bool, serial: Serial, none: Others)
    requires forall x :: none(x) == x
    ensures EnrollWith(t, h, now, usable, serial, none) == Enroll(t, h, now, usable, serial)
    ensures VerifyWith(t, k, presented, none) == VerifyEnrolled(t, k, presented)
    ensures RenewWith(t, k, presented, usable, serial, none, none) == Renew(t, k, presented, usable, serial)
  {
  }

  /** Whatever others do in between: a certificate is accepted exactly if it was acceptable at its lookup, the
      late promotion makes nothing acceptable that was not, and a certificate that is no longer acceptable by
      then changes nothing. */
  lemma SplitVerification(t: Tables, k: Key, serial: Serial, others: Others, other: Serial)
    ensures VerifyWith(t, k, serial, others).0.None? <==> Accepts(t, k, serial)
    ensures Accepts(VerifyWith(t, k, serial, others).1, k, other) ==> Accepts(others(t), k, other)
    ensures !Accepts(others(t), k, serial) ==> VerifyWith(t, k, serial, others).1 == others(t)
  {
  }

  /** Whatever others do in between: a renewal made with a certificate that was not acceptable at its lookup
      changes nothing, and any other makes nothing acceptable but the serial it records. */
  lemma SplitRenewal(t: Tables, k: Key, presented: Serial, usable: bool, serial: Serial, first: Others, second: Others,
                     other: Serial)
    ensures var end := RenewWith(t, k, presented, usable, serial, first, second).1;
            if !Accepts(t, k, presented) then end == first(t)
            else
              Accepts(end, k, other) ==>
                other == serial || Accepts(second(VerifyWith(t, k, presented, first).1), k, other)
  {
  }

  // The same, as the objects that change in place

  class Store {
    var tokens: map<Hash, Token>
    var identities: map<Key, Record>

    function Value(): Tables
      reads this
    {
      Tables(tokens, identities)
    }

    constructor ()
      ensures Value() == Tables(map[], map[])
    {
      tokens, identities := map[], map[];
    }

    /** Other connections' transactions. */
    method Overtaken(others: Others)
      modifies this
      ensures Value() == others(old(Value()))
    {
      var t := others(Value());
      tokens, identities := t.tokens, t.identities;
    }

    method RecordToken(h: Hash, tok: Token)
      modifies this
      ensures Value() == PutToken(old(Value()), h, tok)
    {
      var stored := tok.(expiresAt := Truncate(tok.expiresAt));
      if h in tokens {
        stored := stored.(consumedAt := tokens[h].consumedAt);
      }
      tokens := tokens[h := stored];
    }

    method UseToken(h: Hash, now: Instant) returns (r: Result<Key>)
      modifies this
      ensures (r, Value()) == ConsumeToken(old(Value()), h, now)
    {
      if h !in tokens {
        return Failure(TokenUnknown);
      }
      var t := tokens[h];
      if t.consumedAt.Some? {
        return Failure(TokenConsumed);
      }
      if now > t.expiresAt {
        return Failure(TokenExpired);
      }
      tokens := tokens[h := t.(consumedAt := Some(now))];
      return Success(t.key);
    }

    method SetRecord(k: Key, serial: Serial)
      modifies this
      ensures Value() == PutRecord(old(Value()), k, serial)
    {
      identities := identities[k := Record(serial, [], false)];
    }

    method SetPending(k: Key, serial: Serial) returns (r: Option<Refusal>)
      modifies this
      ensures (r, Value()) == PutPending(old(Value()), k, serial)
    {
      if k in identities && !identities[k].revoked {
        identities := identities[k := identities[k].(pending := serial)];
        return None;
      }
      return Some(if k !in identities then NotEnrolled else RevokedIdentity);
    }

    method PromoteSerial(k: Key, serial: Serial)
      modifies this
      ensures Value() == Promote(old(Value()), k, serial)
    {
      if k in identities && identities[k].pending == serial && !identities[k].revoked {
        identities := identities[k := identities[k].(serial := identities[k].pending, pending := [])];
      }
    }

    method Find(k: Key) returns (r: Result<Record>)
      ensures r == Lookup(Value(), k)
    {
      if k !in identities {
        return Failure(NotEnrolled);
      }
      if identities[k].revoked {
        return Failure(RevokedIdentity);
      }
      return Success(identities[k]);
    }

    method MarkRevoked(k: Key) returns (r: Option<Refusal>)
      modifies this
      ensures (r, Value()) == Revoke(old(Value()), k)
    {
      if k in identities && !identities[k].revoked {
        identities := identities[k := identities[k].(revoked := true)];
        return None;
      }
      if k !in identities {
        return Some(NotEnrolled);
      }
      assert identities[k := identities[k].(revoked := true)] == identities;
      return None;
    }
  }

  class Service {
    const store: Store

    constructor (store: Store)
      ensures this.store == store
    {
      this.store := store;
    }

    /** `others` is what other connections do between the first statement and the second. */
    method EnrollPeer(h: Hash, now: Instant, usable: bool, serial: Serial, others: Others) returns (r: Result<Key>)
      modifies store
      ensures (r, store.Value()) == EnrollWith(old(store.Value()), h, now, usable, serial, others)
    {
      r := store.UseToken(h, now);
      if r.Failure? {
        return;
      }
      store.Overtaken(others);
      if !usable {
        return Failure(BadRequest);
      }
      store.SetRecord(r.value, serial);
    }

    /** `others` is what other connections do between the lookup and what follows it. */
    method VerifyPeer(k: Key, presented: Serial, others: Others) returns (r: Option<Refusal>)
      modifies store
      ensures (r, store.Value()) == VerifyWith(old(store.Value()), k, presented, others)
    {
      var found := store.Find(k);
      store.Overtaken(others);
      if found.Failure? {
        return Some(found.why);
      }
      if found.value.serial == presented {
        return None;
      }
      if found.value.pending != [] && found.value.pending == presented {
        store.PromoteSerial(k, presented);
        return None;
      }
      return Some(NotEnrolled);
    }

    method RenewPeer(k: Key, presented: Serial, usable: bool, serial: Serial, first: Others, second: Others)
      returns (r: Option<Refusal>)
      modifies store
      ensures (r, store.Value()) == RenewWith(old(store.Value()), k, presented, usable, serial, first, second)
    {
      r := VerifyPeer(k, presented, first);
      if r.Some? {
        return;
      }
      store.Overtaken(second);
      if !usable {
        return Some(BadRequest);
      }
      r := store.SetPending(k, serial);
    }
  }
}
