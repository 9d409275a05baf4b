/** Enrollment and renewal over whole runs. */
module Renewal {
  import opened Bytes
  import opened Strings
  import opened Grants
  import opened Identities

  /** `issued` are all serials the authority has signed, `held` those some peer has stored, `stored` the last
      certificate each peer stored since it enrolled, and `enrolled` the tokens that enrolled someone, in
      order. */
  datatype State = State(
    tables: Tables,
    issued: set<Serial>,
    held: set<Serial>,
    stored: map<Key, Serial>,
    enrolled: seq<Hash>)

  /** `arrives` says whether the new certificate reaches the peer and is stored there. Anyone may present, or
      renew with, a certificate that was ever stored. */
  datatype Event =
    | Mints(h: Hash, tok: Token)
    | Enrolls(h: Hash, now: Instant, usable: bool, serial: Serial, arrives: bool)
    | Renews(k: Key, presented: Serial, usable: bool, serial: Serial, arrives: bool)
    | Presents(k: Key, serial: Serial)
    | Revokes(k: Key)

  const BEGIN := State(Tables(map[], map[]), {}, {}, map[], [])

  /** Serials are fresh and not empty; a presented certificate was stored. */
  predicate Possible(s: State, ev: Event) {
    match ev
    case Mints(_, tok) => tok.consumedAt.None?
    case Enrolls(_, _, _, serial, _) => serial != [] && serial !in s.issued
    case Renews(_, presented, _, serial, _) => presented in s.held && serial != [] && serial !in s.issued
    case Presents(_, serial) => serial in s.held
    case Revokes(_) => true
  }

  function AfterEnroll(s: State, h: Hash, now: Instant, usable: bool, serial: Serial, arrives: bool): State {
    var (r, t) := Enroll(s.tables, h, now, usable, serial);
    if r.Failure? then s.(tables := t, issued := s.issued + {serial})
    else
      s.(tables := t, issued := s.issued + {serial}, enrolled := s.enrolled + [h],
         held := if arrives then s.held + {serial} else s.held,
         stored := if arrives then s.stored[r.value := serial] else s.stored - {r.value})
  }

  function AfterRenew(s: State, k: Key, presented: Serial, usable: bool, serial: Serial, arrives: bool): State {
    var (r, t) := Renew(s.tables, k, presented, usable, serial);
    if r.Some? || !arrives then s.(tables := t, issued := s.issued + {serial})
    else s.(tables := t, issued := s.issued + {serial}, held := s.held + {serial}, stored := s.stored[k := serial])
  }

  function Happen(s: State, ev: Event): State
    requires Possible(s, ev)
  {
    match ev
    case Mints(h, tok) => s.(tables := PutToken(s.tables, h, tok))
    case Enrolls(h, now, usable, serial, arrives) => AfterEnroll(s, h, now, usable, serial, arrives)
    case Renews(k, presented, usable, serial, arrives) => AfterRenew(s, k, presented, usable, serial, arrives)
    case Presents(k, serial) => s.(tables := VerifyEnrolled(s.tables, k, serial).1)
    case Revokes(k) => s.(tables := Revoke(s.tables, k).1)
  }

  function Run(s: State, events: seq<Event>): Option<State>
    decreases |events|
  {
    if events == [] then Some(s)
    else if !Possible(s, events[0]) then None
    else Run(Happen(s, events[0]), events[1..])
  }

  /** Whether a renewal is made with the certificate its peer stored last. */
  predicate InTurn(s: State, ev: Event) {
    ev.Renews? ==> ev.k in s.stored && ev.presented == s.stored[ev.k]
  }

  /** Whether every renewal of a run is. */
  predicate AllInTurn(s: State, events: seq<Event>)
    decreases |events|
  {
    events != [] && Possible(s, events[0]) ==>
      InTurn(s, events[0]) && AllInTurn(Happen(s, events[0]), events[1..])
  }

  // What every event keeps

  /** Everything on record was issued, and what is held was too. */
  ghost predicate Recorded(s: State) {
    && s.held <= s.issued && [] !in s.issued
    && (forall k | k in s.tables.identities ::
          s.tables.identities[k].serial in s.issued &&
          (s.tables.identities[k].pending != [] ==> s.tables.identities[k].pending in s.issued))
  }

  /** What a peer stored last is the current serial or the pending one; a pending serial that was stored is
      the one its peer stored last. */
  ghost predicate NotLockedOut(s: State) {
    && (forall k | k in s.stored ::
          && k in s.tables.identities && s.stored[k] in s.held
          && (s.stored[k] == s.tables.identities[k].serial || s.stored[k] == s.tables.identities[k].pending))
    && (forall k | k in s.tables.identities && s.tables.identities[k].pending in s.held ::
          k in s.stored && s.stored[k] == s.tables.identities[k].pending)
  }

  /** A token that enrolled someone is on record as consumed, and did so once. */
  ghost predicate SpentOnce(s: State) {
    && (forall i | 0 <= i < |s.enrolled| ::
          s.enrolled[i] in s.tables.tokens && s.tables.tokens[s.enrolled[i]].consumedAt.Some?)
    && (forall i, j | 0 <= i < j < |s.enrolled| :: s.enrolled[i] != s.enrolled[j])
  }

  ghost predicate Inv(s: State) {
    Recorded(s) && SpentOnce(s)
  }

  lemma KeepsRecorded(s: State, ev: Event)
    requires Recorded(s) && Possible(s, ev)
    ensures Recorded(Happen(s, ev))
  {
  }

  lemma KeepsSpentOnce(s: State, ev: Event)
    requires SpentOnce(s) && Possible(s, ev)
    ensures SpentOnce(Happen(s, ev))
  {
  }

  lemma EnrollKeepsPeersIn(s: State, ev: Event)
    requires Recorded(s) && NotLockedOut(s) && Possible(s, ev) && ev.Enrolls?
    ensures NotLockedOut(Happen(s, ev))
  {
  }

  lemma RenewKeepsPeersIn(s: State, ev: Event)
    requires Recorded(s) && NotLockedOut(s) && Possible(s, ev) && ev.Renews? && InTurn(s, ev)
    ensures NotLockedOut(Happen(s, ev))
  {
    var k := ev.k;
    var mine := s.stored[k];
    if Accepts(s.tables, k, mine) {
      VerifiedBecomesCurrent(s.tables, k, mine);
    }
  }

  lemma KeepsPeersIn(s: State, ev: Event)
    requires Recorded(s) && NotLockedOut(s) && Possible(s, ev) && InTurn(s, ev)
    ensures NotLockedOut(Happen(s, ev))
  {
    match ev {
      case Enrolls(_, _, _, _, _) => EnrollKeepsPeersIn(s, ev);
      case Renews(_, _, _, _, _) => RenewKeepsPeersIn(s, ev);
      case _ =>
    }
  }

  lemma {:induction false} RunKeeps(s: State, events: seq<Event>)
    requires Inv(s) && Run(s, events).Some?
    ensures Inv(Run(s, events).value)
    decreases |events|
  {
    if events != [] {
      KeepsRecorded(s, events[0]);
      KeepsSpentOnce(s, events[0]);
      RunKeeps(Happen(s, events[0]), events[1..]);
    }
  }

  lemma {:induction false} RunKeepsPeersIn(s: State, events: seq<Event>)
    requires Recorded(s) && NotLockedOut(s) && Run(s, events).Some? && AllInTurn(s, events)
    ensures NotLockedOut(Run(s, events).value)
    decreases |events|
  {
    if events != [] {
      KeepsRecorded(s, events[0]);
      KeepsPeersIn(s, events[0]);
      RunKeepsPeersIn(Happen(s, events[0]), events[1..]);
    }
  }

  /** However many renewals were completed or lost on the way, each made with the certificate stored last, the
      last certificate a peer stored since it enrolled is accepted, exactly until its identity is revoked. */
  lemma LastStoredIsAccepted(events: seq<Event>, k: Key)
    requires Run(BEGIN, events).Some? && AllInTurn(BEGIN, events) && k in Run(BEGIN, events).value.stored
    ensures var s := Run(BEGIN, events).value;
            && k in s.tables.identities
            && (Accepts(s.tables, k, s.stored[k]) <==> !s.tables.identities[k].revoked)
  {
    RunKeeps(BEGIN, events);
    RunKeepsPeersIn(BEGIN, events);
  }

  lemma NothingReturns(s: State, ev: Event, k: Key, serial: Serial)
    requires Recorded(s) && Possible(s, ev) && serial in s.issued && !Accepts(s.tables, k, serial)
    ensures serial in Happen(s, ev).issued && !Accepts(Happen(s, ev).tables, k, serial)
  {
    if ev.Renews? {
      NoneReturnsByRenewal(s, ev, k, serial);
    }
  }

  lemma NoneReturnsByRenewal(s: State, ev: Event, k: Key, serial: Serial)
    requires Recorded(s) && Possible(s, ev) && ev.Renews? && serial in s.issued && !Accepts(s.tables, k, serial)
    ensures !Accepts(Happen(s, ev).tables, k, serial)
  {
    if Accepts(s.tables, ev.k, ev.presented) {
      VerifiedBecomesCurrent(s.tables, ev.k, ev.presented);
    }
  }

  lemma {:induction false} RetiredFrom(s: State, events: seq<Event>, k: Key, serial: Serial)
    requires Recorded(s) && Run(s, events).Some? && serial in s.issued && !Accepts(s.tables, k, serial)
    ensures !Accepts(Run(s, events).value.tables, k, serial)
    decreases |events|
  {
    if events != [] {
      KeepsRecorded(s, events[0]);
      NothingReturns(s, events[0], k, serial);
      RetiredFrom(Happen(s, events[0]), events[1..], k, serial);
    }
  }

  /** A serial that has been issued and is not accepted, because it was superseded, revoked, or never put on
      record, is not accepted at any later point of any run, whatever certificates renewals are made with. */
  lemma RetiredStaysRetired(before: seq<Event>, after: seq<Event>, k: Key, serial: Serial)
    requires Run(BEGIN, before).Some? && Run(Run(BEGIN, before).value, after).Some?
    requires serial in Run(BEGIN, before).value.issued && !Accepts(Run(BEGIN, before).value.tables, k, serial)
    ensures !Accepts(Run(Run(BEGIN, before).value, after).value.tables, k, serial)
  {
    RunKeeps(BEGIN, before);
    RetiredFrom(Run(BEGIN, before).value, after, k, serial);
  }

  /** Each token enrolls at most once, even if it is minted again. */
  lemma TokenEnrollsAtMostOnce(events: seq<Event>, i: nat, j: nat)
    requires Run(BEGIN, events).Some? && i < j < |Run(BEGIN, events).value.enrolled|
    ensures Run(BEGIN, events).value.enrolled[i] != Run(BEGIN, events).value.enrolled[j]
  {
    RunKeeps(BEGIN, events);
  }

  /** Renewals that overlap can lock a peer out: a second renewal leaves the certificate offered by the first
      accepted exactly when it was authenticated by that certificate. */
  lemma OverlapSupersedes(t: Tables, k: Key, presented: Serial, next: Serial)
    requires Accepts(t, k, presented) && t.identities[k].pending != [] && next != t.identities[k].pending
    ensures var offered := t.identities[k].pending;
            Accepts(Renew(t, k, presented, true, next).1, k, offered) <==> presented == offered
  {
  }

  /** Two renewals with the first certificate; the first answer is the one stored. */
  lemma OverlapLocksOut(k: Key)
    ensures var t0 := PutRecord(Tables(map[], map[]), k, [1]);
            var t1 := Renew(t0, k, [1], true, [2]).1;
            var t2 := Renew(t1, k, [1], true, [3]).1;
            Accepts(t1, k, [2]) && !Accepts(t2, k, [2])
  {
    var t0 := PutRecord(Tables(map[], map[]), k, [1]);
    var t1 := Renew(t0, k, [1], true, [2]).1;
    assert t1.identities[k] == Record([1], [2], false);
    OverlapSupersedes(t1, k, [1], [3]);
  }
}
