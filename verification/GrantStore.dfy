/** The tables of issued grants and operator sessions, and their audit trail. Each function is one
    transaction; times are whole seconds, as stored. */
module GrantStore {
  import opened Bytes
  import opened Strings

  datatype GrantRow = GrantRow(
    grantID: Text,
    orgID: Text,
    userID: Text,
    deviceID: Text,
    resourceID: Text,
    policyID: Text,
    sessionID: Option<Text>,
    issuedAt: int,
    expiresAt: int,
    maxBytes: uint64,
    revokedAt: Option<int>,
    reason: Text)

  datatype SessionRow = SessionRow(
    sessionID: Text,
    userID: Text,
    createdAt: int,
    expiresAt: int,
    revokedAt: Option<int>)

  datatype EventName = GrantCreated | GrantDenied | GrantRevoked | OperatorLogin | OperatorLogout | SessionEnded | OtherEvent(name: Text)

  datatype AuditEvent = AuditEvent(
    event: EventName,
    actorID: Text,
    deviceID: Text,
    resourceID: Text,
    grantID: Text,
    sessionID: Text,
    reason: Text)

  datatype Db = Db(grants: seq<GrantRow>, sessions: seq<SessionRow>, audit: seq<AuditEvent>)

  /** A primary key that is taken refuses the insert, and the event with it. */
  function RecordGrant(db: Db, g: GrantRow, e: AuditEvent): Option<Db> {
    if exists i | 0 <= i < |db.grants| :: db.grants[i].grantID == g.grantID then None
    else Some(db.(grants := db.grants + [g], audit := db.audit + [e]))
  }

  // Revoking grants

  datatype Scope = ScopeUser | ScopeDevice | ScopeSession

  /** Which grants to revoke, why, by whom and when. */
  datatype Cascade = Cascade(scope: Scope, value: Text, reason: Text, actor: Actor, now: int)

  /** The part of a revocation's event that its caller fills in. */
  datatype Actor = Actor(event: EventName, id: Text)

  function Revoker(actorID: Text): Actor { Actor(GrantRevoked, actorID) }

  /** A grant issued without a session has no value in that column, and matches none. */
  function Column(g: GrantRow, scope: Scope): Option<Text> {
    match scope
    case ScopeUser => Some(g.userID)
    case ScopeDevice => Some(g.deviceID)
    case ScopeSession => g.sessionID
  }

  predicate Hit(g: GrantRow, c: Cascade) {
    g.revokedAt.None? && g.expiresAt > c.now && Column(g, c.scope) == Some(c.value)
  }

  function Stamp(g: GrantRow, reason: Text, now: int): GrantRow {
    g.(revokedAt := Some(now), reason := reason)
  }

  function After(g: GrantRow, c: Cascade): GrantRow {
    if Hit(g, c) then Stamp(g, c.reason, c.now) else g
  }

  function AfterAll(rows: seq<GrantRow>, c: Cascade): seq<GrantRow> {
    seq(|rows|, i requires 0 <= i < |rows| => After(rows[i], c))
  }

  /** The rows revoked, as they then stand, in table order. */
  function Hits(rows: seq<GrantRow>, c: Cascade): seq<GrantRow> {
    if rows == [] then []
    else
      var last := rows[|rows| - 1];
      Hits(rows[..|rows| - 1], c) + if Hit(last, c) then [After(last, c)] else []
  }

  function EventFor(g: GrantRow, actor: Actor): AuditEvent {
    AuditEvent(actor.event, actor.id, g.deviceID, g.resourceID, g.grantID,
               if g.sessionID.Some? then g.sessionID.value else [], g.reason)
  }

  function EventsFor(rows: seq<GrantRow>, actor: Actor): seq<AuditEvent> {
    seq(|rows|, i requires 0 <= i < |rows| => EventFor(rows[i], actor))
  }

  function RevokeWhere(db: Db, c: Cascade): (seq<GrantRow>, Db) {
    var hits := Hits(db.grants, c);
    (hits, db.(grants := AfterAll(db.grants, c), audit := db.audit + EventsFor(hits, c.actor)))
  }

  function IndexOf(rows: seq<GrantRow>, id: Text): (k: nat)
    ensures k <= |rows| && (k < |rows| ==> rows[k].grantID == id)
    ensures forall i | 0 <= i < k :: rows[i].grantID != id
  {
    if rows == [] then 0 else if rows[0].grantID == id then 0 else 1 + IndexOf(rows[1..], id)
  }

  /** Revoking what is revoked changes nothing, and leaves no second event. */
  function RevokeOne(db: Db, id: Text, reason: Text, actor: Actor, now: int): Option<Db> {
    var k := IndexOf(db.grants, id);
    if k == |db.grants| then None
    else if db.grants[k].revokedAt.Some? then Some(db)
    else
      var g := Stamp(db.grants[k], reason, now);
      Some(db.(grants := db.grants[k := g], audit := db.audit + [EventFor(g, actor)]))
  }

  // Sessions

  predicate SessionTaken(rows: seq<SessionRow>, id: Text) {
    exists i | 0 <= i < |rows| :: rows[i].sessionID == id
  }

  function CreateSession(db: Db, r: SessionRow, actorID: Text): Option<Db> {
    if SessionTaken(db.sessions, r.sessionID) then None
    else
      Some(db.(sessions := db.sessions + [r],
               audit := db.audit + [AuditEvent(OperatorLogin, actorID, [], [], [], r.sessionID, [])]))
  }

  function SessionAt(rows: seq<SessionRow>, id: Text): (k: nat)
    ensures k <= |rows| && (k < |rows| ==> rows[k].sessionID == id)
    ensures forall i | 0 <= i < k :: rows[i].sessionID != id
  {
    if rows == [] then 0 else if rows[0].sessionID == id then 0 else 1 + SessionAt(rows[1..], id)
  }

  const LOGOUT: Text := Ascii("logout")

  /** None for a session that does not exist. Ending twice leaves one event. */
  function RevokeSession(db: Db, id: Text, reason: Text, actorID: Text, now: int): Option<Db> {
    var k := SessionAt(db.sessions, id);
    if k == |db.sessions| then None
    else if db.sessions[k].revokedAt.Some? then Some(db)
    else
      var e := AuditEvent(if reason == LOGOUT then OperatorLogout else SessionEnded, actorID, [], [], [], id, reason);
      Some(db.(sessions := db.sessions[k := db.sessions[k].(revokedAt := Some(now))], audit := db.audit + [e]))
  }

  /** Ends a session and every live grant issued under it. */
  function End(db: Db, id: Text, reason: Text, actorID: Text, now: int): (Option<seq<GrantRow>>, Db) {
    match RevokeSession(db, id, reason, actorID, now)
    case None => (None, db)
    case Some(db1) =>
      var (hits, db2) := RevokeWhere(db1, Cascade(ScopeSession, id, reason, Revoker(actorID), now));
      (Some(hits), db2)
  }

  /** Ends the listed sessions in turn, the k-th at clock(k). False if it had to stop at one that does not exist;
      what was revoked until then is returned all the same. */
  function EndEach(db: Db, ids: seq<Text>, reason: Text, actorID: Text, clock: nat -> int): (bool, seq<GrantRow>, Db) {
    if ids == [] then (true, [], db)
    else
      var n := |ids| - 1;
      var (ok, before, db1) := EndEach(db, ids[..n], reason, actorID, clock);
      if !ok then (false, before, db1)
      else
        var (hits, db2) := End(db1, ids[n], reason, actorID, clock(n));
        if hits.None? then (false, before, db2) else (true, before + hits.value, db2)
  }

  /** Ends the listed sessions, then revokes what grants the user still has. */
  function EndAll(db: Db, listed: seq<Text>, userID: Text, reason: Text, actorID: Text, clock: nat -> int)
    : (bool, seq<GrantRow>, Db)
  {
    var (ok, ended, db1) := EndEach(db, listed, reason, actorID, clock);
    if !ok then (false, ended, db1)
    else
      var (hits, db2) := RevokeWhere(db1, Cascade(ScopeUser, userID, reason, Revoker(actorID), clock(|listed|)));
      (true, ended + hits, db2)
  }

  // The same, as a store that changes in place

  class Store {
    var grants: seq<GrantRow>
    var sessions: seq<SessionRow>
    var audit: seq<AuditEvent>

    function Value(): Db
      reads this
    {
      Db(grants, sessions, audit)
    }

    constructor ()
      ensures Value() == Db([], [], [])
    {
      grants, sessions, audit := [], [], [];
    }

    /** Selects, then updates, then leaves one event per grant. */
    method RevokeGrantsWhere(c: Cascade) returns (affected: seq<GrantRow>)
      modifies this
      ensures (affected, Value()) == RevokeWhere(old(Value()), c)
    {
      affected := [];
      for i := 0 to |grants|
        invariant affected == Hits(grants[..i], c)
      {
        assert grants[..i + 1][..i] == grants[..i];
        if Hit(grants[i], c) {
          affected := affected + [Stamp(grants[i], c.reason, c.now)];
        }
      }
      assert grants[..|grants|] == grants;
      var rows := grants;
      var updated := [];
      for i := 0 to |rows|
        invariant updated == AfterAll(rows[..i], c)
      {
        updated := updated + [if Hit(rows[i], c) then Stamp(rows[i], c.reason, c.now) else rows[i]];
      }
      assert rows[..|rows|] == rows;
      grants := updated;
      ghost var before := audit;
      for i := 0 to |affected|
        invariant audit == before + EventsFor(affected[..i], c.actor)
        invariant grants == updated && sessions == old(sessions)
      {
        assert affected[..i + 1] == affected[..i] + [affected[i]];
        assert EventsFor(affected[..i + 1], c.actor) ==
               EventsFor(affected[..i], c.actor) + [EventFor(affected[i], c.actor)];
        audit := audit + [EventFor(affected[i], c.actor)];
      }
      assert affected[..|affected|] == affected;
    }

    method EndSession(id: Text, reason: Text, actorID: Text, now: int) returns (r: Option<seq<GrantRow>>)
      modifies this
      ensures (r, Value()) == End(old(Value()), id, reason, actorID, now)
    {
      var k := SessionAt(sessions, id);
      if k == |sessions| {
        return None;
      }
      if sessions[k].revokedAt.None? {
        var event := if reason == LOGOUT then OperatorLogout else SessionEnded;
        sessions := sessions[k := sessions[k].(revokedAt := Some(now))];
        audit := audit + [AuditEvent(event, actorID, [], [], [], id, reason)];
      }
      var hits := RevokeGrantsWhere(Cascade(ScopeSession, id, reason, Revoker(actorID), now));
      return Some(hits);
    }

    /** `listed` is what the query for the user's live sessions returned. */
    method EndAllForUser(listed: seq<Text>, userID: Text, reason: Text, actorID: Text, clock: nat -> int)
      returns (ok: bool, all: seq<GrantRow>)
      modifies this
      ensures (ok, all, Value()) == EndAll(old(Value()), listed, userID, reason, actorID, clock)
    {
      all := [];
      ghost var db := Value();
      for i := 0 to |listed|
        invariant (true, all, Value()) == EndEach(db, listed[..i], reason, actorID, clock)
      {
        assert listed[..i + 1][..i] == listed[..i];
        var revoked := EndSession(listed[i], reason, actorID, clock(i));
        if revoked.None? {
          EndEachStops(db, listed, i + 1, reason, actorID, clock);
          return false, all;
        }
        all := all + revoked.value;
      }
      assert listed[..|listed|] == listed;
      var direct := RevokeGrantsWhere(Cascade(ScopeUser, userID, reason, Revoker(actorID), clock(|listed|)));
      return true, all + direct;
    }
  }

  /** A failure is final. */
  lemma {:induction false} EndEachStops(db: Db, ids: seq<Text>, i: nat, reason: Text, actorID: Text, clock: nat -> int)
    requires i <= |ids| && !EndEach(db, ids[..i], reason, actorID, clock).0
    ensures EndEach(db, ids, reason, actorID, clock) == EndEach(db, ids[..i], reason, actorID, clock)
    decreases |ids|
  {
    if i == |ids| {
      assert ids[..i] == ids;
    } else {
      var n := |ids| - 1;
      assert ids[..n][..i] == ids[..i];
      EndEachStops(db, ids[..n], i, reason, actorID, clock);
    }
  }
}
