/** What cascading revocation reaches, and one audit event per revoked grant over whole runs. */
module Cascades {
  import opened Bytes
  import opened Strings
  import opened GrantStore

  // One cascade

  ghost predicate UniqueIds(rows: seq<GrantRow>) {
    forall i, j | 0 <= i < j < |rows| :: rows[i].grantID != rows[j].grantID
  }

  predicate Revoked(a: GrantRow, b: GrantRow) {
    a.revokedAt.None? && b.revokedAt.Some? && b == a.(revokedAt := b.revokedAt, reason := b.reason)
  }

  /** Row by row, a table either stays as it is or has the row revoked; and the rows revoked are exactly those
      listed, each once. */
  ghost predicate Tracks(a: seq<GrantRow>, b: seq<GrantRow>, list: seq<GrantRow>) {
    && |a| == |b|
    && (forall i | 0 <= i < |a| :: b[i] == a[i] || Revoked(a[i], b[i]))
    && (forall i | 0 <= i < |a| :: Revoked(a[i], b[i]) ==> b[i] in list)
    && (forall r | r in list :: exists i | 0 <= i < |a| :: b[i] == r && Revoked(a[i], b[i]))
    && UniqueIds(list)
  }

  lemma {:induction false} HitsAre(rows: seq<GrantRow>, c: Cascade, r: GrantRow)
    ensures r in Hits(rows, c) <==> exists i | 0 <= i < |rows| :: Hit(rows[i], c) && r == After(rows[i], c)
  {
    if rows != [] {
      var n := |rows| - 1;
      var front := rows[..n];
      HitsAre(front, c, r);
      if exists i | 0 <= i < |rows| :: Hit(rows[i], c) && r == After(rows[i], c) {
        var i :| 0 <= i < |rows| && Hit(rows[i], c) && r == After(rows[i], c);
        assert i < n ==> front[i] == rows[i];
      }
      if r in Hits(front, c) {
        var i :| 0 <= i < |front| && Hit(front[i], c) && r == After(front[i], c);
        assert rows[i] == front[i];
      }
    }
  }

  lemma {:induction false} HitsUnique(rows: seq<GrantRow>, c: Cascade)
    requires UniqueIds(rows)
    ensures UniqueIds(Hits(rows, c))
  {
    if rows != [] {
      var n := |rows| - 1;
      var front := rows[..n];
      assert UniqueIds(front);
      HitsUnique(front, c);
      forall r | r in Hits(front, c) ensures r.grantID != rows[n].grantID {
        HitsAre(front, c, r);
        var i :| 0 <= i < |front| && Hit(front[i], c) && r == After(front[i], c);
        assert rows[i] == front[i];
      }
    }
  }

  lemma CascadeTracks(rows: seq<GrantRow>, c: Cascade)
    requires UniqueIds(rows)
    ensures Tracks(rows, AfterAll(rows, c), Hits(rows, c))
    ensures UniqueIds(AfterAll(rows, c))
  {
    var after, list := AfterAll(rows, c), Hits(rows, c);
    HitsUnique(rows, c);
    forall i | 0 <= i < |rows| ensures after[i] == rows[i] || Revoked(rows[i], after[i])
                               ensures Revoked(rows[i], after[i]) ==> after[i] in list {
      if Hit(rows[i], c) {
        HitsAre(rows, c, after[i]);
      }
    }
    forall r | r in list ensures exists i | 0 <= i < |rows| :: after[i] == r && Revoked(rows[i], after[i]) {
      HitsAre(rows, c, r);
      var i :| 0 <= i < |rows| && Hit(rows[i], c) && r == After(rows[i], c);
      assert after[i] == r && Revoked(rows[i], after[i]);
    }
  }

  lemma TracksNothing(a: seq<GrantRow>)
    ensures Tracks(a, a, [])
  {
  }

  lemma TracksIds(a: seq<GrantRow>, b: seq<GrantRow>, list: seq<GrantRow>, r: GrantRow)
    requires Tracks(a, b, list) && r in list
    ensures exists i | 0 <= i < |a| :: a[i].grantID == r.grantID && a[i].revokedAt.None? && b[i].revokedAt.Some?
  {
    var i :| 0 <= i < |a| && b[i] == r && Revoked(a[i], b[i]);
    assert a[i].grantID == r.grantID;
  }

  /** Two cascades in a row name no grant twice, since the second finds the first's revoked. */
  lemma TracksJoin(a: seq<GrantRow>, b: seq<GrantRow>, c: seq<GrantRow>, l1: seq<GrantRow>, l2: seq<GrantRow>)
    requires UniqueIds(a) && Tracks(a, b, l1) && Tracks(b, c, l2)
    ensures Tracks(a, c, l1 + l2)
  {
    forall i | 0 <= i < |a| ensures c[i] == a[i] || Revoked(a[i], c[i])
                            ensures Revoked(a[i], c[i]) ==> c[i] in l1 + l2 {
      assert b[i] == a[i] || Revoked(a[i], b[i]);
      assert c[i] == b[i] || Revoked(b[i], c[i]);
    }
    forall r | r in l1 + l2 ensures exists i | 0 <= i < |a| :: c[i] == r && Revoked(a[i], c[i]) {
      if r in l1 {
        var i :| 0 <= i < |a| && b[i] == r && Revoked(a[i], b[i]);
        assert c[i] == r;
      } else {
        var i :| 0 <= i < |b| && c[i] == r && Revoked(b[i], c[i]);
        assert b[i] == a[i];
      }
    }
    JoinUnique(a, b, c, l1, l2);
  }

  lemma RevokedIndex(a: seq<GrantRow>, b: seq<GrantRow>, list: seq<GrantRow>, r: GrantRow) returns (i: nat)
    requires Tracks(a, b, list) && r in list
    ensures i < |a| == |b| && b[i] == r && Revoked(a[i], b[i])
  {
    i :| 0 <= i < |a| && b[i] == r && Revoked(a[i], b[i]);
  }

  lemma TrackedId(a: seq<GrantRow>, b: seq<GrantRow>, list: seq<GrantRow>, j: nat)
    requires Tracks(a, b, list) && j < |a|
    ensures b[j].grantID == a[j].grantID
  {
    assert b[j] == a[j] || Revoked(a[j], b[j]);
  }

  /** A row that the first cascade revoked is not one that the second does. */
  lemma RevokedOnce(a: seq<GrantRow>, b: seq<GrantRow>, c: seq<GrantRow>, l1: seq<GrantRow>, l2: seq<GrantRow>,
                    r: GrantRow, s: GrantRow)
    requires UniqueIds(a) && Tracks(a, b, l1) && Tracks(b, c, l2) && r in l1 && s in l2
    ensures r.grantID != s.grantID
  {
    var i := RevokedIndex(a, b, l1, r);
    var j := RevokedIndex(b, c, l2, s);
    TrackedId(a, b, l1, i);
    TrackedId(a, b, l1, j);
    DifferentIds(a, i, j);
  }

  lemma DifferentIds(a: seq<GrantRow>, i: nat, j: nat)
    requires UniqueIds(a) && i < |a| && j < |a| && i != j
    ensures a[i].grantID != a[j].grantID
  {
  }

  lemma UniqueJoin(l1: seq<GrantRow>, l2: seq<GrantRow>)
    requires UniqueIds(l1) && UniqueIds(l2)
    requires forall r, s | r in l1 && s in l2 :: r.grantID != s.grantID
    ensures UniqueIds(l1 + l2)
  {
  }

  lemma JoinUnique(a: seq<GrantRow>, b: seq<GrantRow>, c: seq<GrantRow>, l1: seq<GrantRow>, l2: seq<GrantRow>)
    requires UniqueIds(a) && Tracks(a, b, l1) && Tracks(b, c, l2)
    ensures UniqueIds(l1 + l2)
  {
    forall r, s | r in l1 && s in l2 ensures r.grantID != s.grantID {
      RevokedOnce(a, b, c, l1, l2, r, s);
    }
    UniqueJoin(l1, l2);
  }

  // Ending a user's sessions

  /** Only grants of these sessions changed. */
  ghost predicate OnlyOf(a: seq<GrantRow>, b: seq<GrantRow>, ids: seq<Text>) {
    |a| == |b| && forall i | 0 <= i < |a| && b[i] != a[i] :: a[i].sessionID.Some? && a[i].sessionID.value in ids
  }

  lemma TracksSessions(a: seq<GrantRow>, b: seq<GrantRow>, list: seq<GrantRow>)
    requires Tracks(a, b, list)
    ensures forall i | 0 <= i < |a| :: b[i].sessionID == a[i].sessionID
  {
  }

  lemma EndGrants(db: Db, id: Text, reason: Text, actorID: Text, now: int)
    ensures var (hits, db') := End(db, id, reason, actorID, now);
            if hits.Some? then
              var c := Cascade(ScopeSession, id, reason, Revoker(actorID), now);
              hits.value == Hits(db.grants, c) && db'.grants == AfterAll(db.grants, c)
            else db' == db
  {
  }

  lemma SessionCascadeOnlyOf(rows: seq<GrantRow>, c: Cascade)
    requires c.scope.ScopeSession?
    ensures OnlyOf(rows, AfterAll(rows, c), [c.value])
  {
  }

  lemma EndTracks(db: Db, id: Text, reason: Text, actorID: Text, now: int)
    requires UniqueIds(db.grants)
    ensures var (hits, db') := End(db, id, reason, actorID, now);
            && Tracks(db.grants, db'.grants, if hits.Some? then hits.value else []) && UniqueIds(db'.grants)
            && OnlyOf(db.grants, db'.grants, [id])
  {
    EndGrants(db, id, reason, actorID, now);
    if End(db, id, reason, actorID, now).0.Some? {
      var c := Cascade(ScopeSession, id, reason, Revoker(actorID), now);
      CascadeTracks(db.grants, c);
      SessionCascadeOnlyOf(db.grants, c);
    } else {
      TracksNothing(db.grants);
    }
  }

  lemma OnlyOfJoin(a: seq<GrantRow>, b: seq<GrantRow>, c: seq<GrantRow>, ids: seq<Text>, id: Text)
    requires OnlyOf(a, b, ids) && OnlyOf(b, c, [id]) && |a| == |b|
    requires forall i | 0 <= i < |a| :: b[i].sessionID == a[i].sessionID
    ensures OnlyOf(a, c, ids + [id])
  {
  }

  /** Also when it stops half way: what changed is what is listed. */
  lemma {:induction false} EndEachTracks(db: Db, ids: seq<Text>, reason: Text, actorID: Text, clock: nat -> int)
    requires UniqueIds(db.grants)
    ensures var (_, list, db') := EndEach(db, ids, reason, actorID, clock);
            Tracks(db.grants, db'.grants, list) && OnlyOf(db.grants, db'.grants, ids) && UniqueIds(db'.grants)
    decreases |ids|
  {
    if ids == [] {
      TracksNothing(db.grants);
    } else {
      var n := |ids| - 1;
      EndEachTracks(db, ids[..n], reason, actorID, clock);
      var (ok, before, db1) := EndEach(db, ids[..n], reason, actorID, clock);
      assert ids == ids[..n] + [ids[n]];
      if ok {
        EndTracks(db1, ids[n], reason, actorID, clock(n));
        var (hits, db2) := End(db1, ids[n], reason, actorID, clock(n));
        var now := if hits.Some? then hits.value else [];
        TracksJoin(db.grants, db1.grants, db2.grants, before, now);
        TracksSessions(db.grants, db1.grants, before);
        OnlyOfJoin(db.grants, db1.grants, db2.grants, ids[..n], ids[n]);
        assert before + [] == before;
      }
    }
  }

  /** Whether or not EndAllForUser succeeds: only grants of the user or of the sessions listed changed, and only by
      being revoked, and the list returned names each newly revoked grant exactly once. When it succeeds, no grant
      of the user is left unrevoked and unexpired. */
  lemma EndAllIsComplete(db: Db, listed: seq<Text>, userID: Text, reason: Text, actorID: Text, clock: nat -> int)
    requires UniqueIds(db.grants)
    ensures var (ok, list, db') := EndAll(db, listed, userID, reason, actorID, clock);
            && Tracks(db.grants, db'.grants, list)
            && (ok ==> forall i | 0 <= i < |db'.grants| && db'.grants[i].userID == userID ::
                  db'.grants[i].revokedAt.Some? || db'.grants[i].expiresAt <= clock(|listed|))
            && (forall i | 0 <= i < |db.grants| && db'.grants[i] != db.grants[i] ::
                  db.grants[i].userID == userID ||
                  (db.grants[i].sessionID.Some? && db.grants[i].sessionID.value in listed))
  {
    EndEachTracks(db, listed, reason, actorID, clock);
    var (ok, ended, db1) := EndEach(db, listed, reason, actorID, clock);
    if ok {
      var c := Cascade(ScopeUser, userID, reason, Revoker(actorID), clock(|listed|));
      CascadeTracks(db1.grants, c);
      TracksJoin(db.grants, db1.grants, AfterAll(db1.grants, c), ended, Hits(db1.grants, c));
    }
  }

  const MAX_LISTED: nat := 10000

  /** What the listing selects. Without a user it does not filter by user at all. */
  predicate ActiveFor(r: SessionRow, userID: Text, now: int) {
    (userID == [] || r.userID == userID) && r.revokedAt.None? && r.expiresAt > now
  }

  ghost predicate UniqueSessions(rows: seq<SessionRow>) {
    forall i, j | 0 <= i < j < |rows| :: rows[i].sessionID != rows[j].sessionID
  }

  function ActiveIds(rows: seq<SessionRow>, userID: Text, now: int): set<Text> {
    set i | 0 <= i < |rows| && ActiveFor(rows[i], userID, now) :: rows[i].sessionID
  }

  function AsSet(ids: seq<Text>): set<Text> {
    set id | id in ids
  }

  /** What the query for a user's live sessions returns: distinct ones, all of them up to its limit. */
  ghost predicate IsListing(rows: seq<SessionRow>, userID: Text, now: int, listed: seq<Text>) {
    && AsSet(listed) <= ActiveIds(rows, userID, now)
    && |AsSet(listed)| == |listed|
    && |listed| == Min(|ActiveIds(rows, userID, now)|, MAX_LISTED)
  }

  /** Row by row, the sessions listed are ended and no other is. */
  ghost predicate Ended(a: seq<SessionRow>, b: seq<SessionRow>, ids: seq<Text>) {
    && |a| == |b|
    && (forall i | 0 <= i < |a| :: b[i].sessionID == a[i].sessionID)
    && (forall i | 0 <= i < |a| :: if a[i].sessionID in ids then b[i].revokedAt.Some? else b[i] == a[i])
  }

  lemma EndOne(db: Db, id: Text, reason: Text, actorID: Text, now: int)
    requires UniqueSessions(db.sessions) && End(db, id, reason, actorID, now).0.Some?
    ensures Ended(db.sessions, End(db, id, reason, actorID, now).1.sessions, [id])
  {
    var k := SessionAt(db.sessions, id);
    assert forall i | 0 <= i < |db.sessions| && db.sessions[i].sessionID == id :: i == k;
  }

  lemma EndedJoin(a: seq<SessionRow>, b: seq<SessionRow>, c: seq<SessionRow>, ids: seq<Text>, id: Text)
    requires Ended(a, b, ids) && Ended(b, c, [id])
    ensures Ended(a, c, ids + [id])
  {
    forall i | 0 <= i < |a| ensures if a[i].sessionID in ids + [id] then c[i].revokedAt.Some? else c[i] == a[i] {
      assert b[i].sessionID == a[i].sessionID;
    }
  }

  lemma EndedUnique(a: seq<SessionRow>, b: seq<SessionRow>, ids: seq<Text>)
    requires UniqueSessions(a) && Ended(a, b, ids)
    ensures UniqueSessions(b)
  {
  }

  lemma {:induction false} EndEachEnds(db: Db, ids: seq<Text>, reason: Text, actorID: Text, clock: nat -> int)
    requires UniqueSessions(db.sessions) && EndEach(db, ids, reason, actorID, clock).0
    ensures Ended(db.sessions, EndEach(db, ids, reason, actorID, clock).2.sessions, ids)
    decreases |ids|
  {
    if ids != [] {
      var n := |ids| - 1;
      EndEachEnds(db, ids[..n], reason, actorID, clock);
      var db1 := EndEach(db, ids[..n], reason, actorID, clock).2;
      EndedUnique(db.sessions, db1.sessions, ids[..n]);
      EndOne(db1, ids[n], reason, actorID, clock(n));
      EndedJoin(db.sessions, db1.sessions, End(db1, ids[n], reason, actorID, clock(n)).1.sessions, ids[..n], ids[n]);
      assert ids[..n] + [ids[n]] == ids;
    }
  }

  /** EndAllForUser ends every live session its listing is for exactly when there are at most 10000 of them. */
  lemma EndsEverySessionExactly(db: Db, listed: seq<Text>, userID: Text, reason: Text, actorID: Text,
                                clock: nat -> int, now: int)
    requires UniqueSessions(db.sessions) && IsListing(db.sessions, userID, now, listed)
    requires EndAll(db, listed, userID, reason, actorID, clock).0
    ensures var db' := EndAll(db, listed, userID, reason, actorID, clock).2;
            |db'.sessions| == |db.sessions| &&
            ((forall i | 0 <= i < |db.sessions| && ActiveFor(db.sessions[i], userID, now) ::
                db'.sessions[i].revokedAt.Some?) <==>
             |ActiveIds(db.sessions, userID, now)| <= MAX_LISTED)
  {
    var active := ActiveIds(db.sessions, userID, now);
    var db1 := EndEach(db, listed, reason, actorID, clock).2;
    EndEachEnds(db, listed, reason, actorID, clock);
    if |active| <= MAX_LISTED {
      SameSize(AsSet(listed), active);
      forall i | 0 <= i < |db.sessions| && ActiveFor(db.sessions[i], userID, now)
        ensures db1.sessions[i].revokedAt.Some?
      {
        assert db.sessions[i].sessionID in active;
      }
    } else {
      var id := Missing(AsSet(listed), active);
      var i :| 0 <= i < |db.sessions| && ActiveFor(db.sessions[i], userID, now) && db.sessions[i].sessionID == id;
      assert db1.sessions[i] == db.sessions[i];
    }
  }

  /** It ends nobody else's session exactly when a user is named, or all those listed have none: without a user,
      everybody's sessions are listed and ended. */
  lemma EndsOnlyTheUsersSessions(db: Db, listed: seq<Text>, userID: Text, reason: Text, actorID: Text,
                                 clock: nat -> int, now: int)
    requires UniqueSessions(db.sessions) && IsListing(db.sessions, userID, now, listed)
    requires EndAll(db, listed, userID, reason, actorID, clock).0
    ensures var db' := EndAll(db, listed, userID, reason, actorID, clock).2;
            |db'.sessions| == |db.sessions| &&
            ((forall i | 0 <= i < |db.sessions| && db'.sessions[i] != db.sessions[i] ::
                db.sessions[i].userID == userID) <==>
             userID != [] ||
             forall i | 0 <= i < |db.sessions| && db.sessions[i].sessionID in listed :: db.sessions[i].userID == [])
  {
    EndEachEnds(db, listed, reason, actorID, clock);
    var db1 := EndEach(db, listed, reason, actorID, clock).2;
    forall i | 0 <= i < |db.sessions|
      ensures db.sessions[i].sessionID in listed <==> db1.sessions[i] != db.sessions[i]
      ensures db.sessions[i].sessionID in listed ==> ActiveFor(db.sessions[i], userID, now)
    {
      if db.sessions[i].sessionID in listed {
        assert db.sessions[i].sessionID in AsSet(listed);
        var j :| 0 <= j < |db.sessions| && ActiveFor(db.sessions[j], userID, now) &&
                 db.sessions[j].sessionID == db.sessions[i].sessionID;
        assert i == j;
      }
    }
  }

  lemma SameSize(a: set<Text>, b: set<Text>)
    requires a <= b && |a| == |b|
    ensures a == b
  {
    assert b == a + (b - a);
    assert |b| == |a| + |b - a|;
  }

  lemma Missing(a: set<Text>, b: set<Text>) returns (x: Text)
    requires |a| < |b| && a <= b
    ensures x in b && x !in a
  {
    assert b == a + (b - a);
    x :| x in b - a;
  }

  // One event per revoked grant, over whole runs

  function RevocationsOf(audit: seq<AuditEvent>, id: Text): nat {
    if audit == [] then 0
    else
      var last := audit[|audit| - 1];
      RevocationsOf(audit[..|audit| - 1], id) + if last.event.GrantRevoked? && last.grantID == id then 1 else 0
  }

  ghost predicate IsRevoked(rows: seq<GrantRow>, id: Text) {
    exists i | 0 <= i < |rows| :: rows[i].grantID == id && rows[i].revokedAt.Some?
  }

  ghost predicate OneEventEach(db: Db) {
    forall id :: RevocationsOf(db.audit, id) == if IsRevoked(db.grants, id) then 1 else 0
  }

  ghost predicate Accounted(db: Db) {
    UniqueIds(db.grants) && OneEventEach(db)
  }

  datatype Event =
    | Records(g: GrantRow, e: AuditEvent)
    | Revokes(id: Text, reason: Text, actor: Actor, now: int)
    | Cascades(c: Cascade)
    | Creates(r: SessionRow, actorID: Text)
    | EndsSession(id: Text, reason: Text, actorID: Text, now: int)
    | Appends(e: AuditEvent)

  /** A grant is recorded unrevoked, a revocation is recorded as one, and nothing else is. */
  predicate Possible(ev: Event) {
    match ev
    case Records(g, e) => g.revokedAt.None? && e.event.GrantCreated?
    case Revokes(_, _, actor, _) => actor.event.GrantRevoked?
    case Cascades(c) => c.actor.event.GrantRevoked?
    case Appends(e) => !e.event.GrantRevoked?
    case _ => true
  }

  function OrSame(r: Option<Db>, db: Db): Db {
    if r.Some? then r.value else db
  }

  function Happen(db: Db, ev: Event): Db {
    match ev
    case Records(g, e) => OrSame(RecordGrant(db, g, e), db)
    case Revokes(id, reason, actor, now) => OrSame(RevokeOne(db, id, reason, actor, now), db)
    case Cascades(c) => RevokeWhere(db, c).1
    case Creates(r, actorID) => OrSame(CreateSession(db, r, actorID), db)
    case EndsSession(id, reason, actorID, now) => OrSame(RevokeSession(db, id, reason, actorID, now), db)
    case Appends(e) => db.(audit := db.audit + [e])
  }

  function Run(db: Db, events: seq<Event>): Db
    decreases |events|
  {
    if events == [] then db else Run(Happen(db, events[0]), events[1..])
  }

  lemma OneMore(audit: seq<AuditEvent>, e: AuditEvent, id: Text)
    ensures RevocationsOf(audit + [e], id) ==
            RevocationsOf(audit, id) + if e.event.GrantRevoked? && e.grantID == id then 1 else 0
  {
    assert (audit + [e])[..|audit|] == audit;
  }

  ghost predicate Names(list: seq<GrantRow>, id: Text) {
    exists i | 0 <= i < |list| :: list[i].grantID == id
  }

  /** A list without repetitions adds one event for each grant it names, a revocation if the caller says so. */
  lemma {:induction false} EventsCounted(audit: seq<AuditEvent>, list: seq<GrantRow>, actor: Actor, id: Text)
    requires UniqueIds(list)
    ensures RevocationsOf(audit + EventsFor(list, actor), id) ==
            RevocationsOf(audit, id) + if actor.event.GrantRevoked? && Names(list, id) then 1 else 0
    decreases |list|
  {
    if list == [] {
      assert audit + EventsFor(list, actor) == audit;
    } else {
      var n := |list| - 1;
      var front := list[..n];
      EventsCounted(audit, front, actor, id);
      LastEvent(audit, list, actor);
      OneMore(audit + EventsFor(front, actor), EventFor(list[n], actor), id);
      LastNamed(list, id);
    }
  }

  lemma LastEvent(audit: seq<AuditEvent>, list: seq<GrantRow>, actor: Actor)
    requires list != []
    ensures var n := |list| - 1;
            audit + EventsFor(list, actor) == audit + EventsFor(list[..n], actor) + [EventFor(list[n], actor)]
  {
  }

  lemma LastNamed(list: seq<GrantRow>, id: Text)
    requires list != [] && UniqueIds(list)
    ensures var n := |list| - 1;
            && UniqueIds(list[..n]) && (Names(list, id) <==> Names(list[..n], id) || list[n].grantID == id)
            && !(Names(list[..n], id) && list[n].grantID == id)
  {
    var front := list[..|list| - 1];
    assert forall i | 0 <= i < |front| :: front[i] == list[i];
  }

  /** Exactly the grants listed become revoked. */
  lemma TrackedRevocations(a: seq<GrantRow>, b: seq<GrantRow>, list: seq<GrantRow>, id: Text)
    requires UniqueIds(a) && Tracks(a, b, list)
    ensures IsRevoked(b, id) <==> IsRevoked(a, id) || Names(list, id)
    ensures !(IsRevoked(a, id) && Names(list, id))
  {
    if Names(list, id) {
      var k :| 0 <= k < |list| && list[k].grantID == id;
      TracksIds(a, b, list, list[k]);
      var i :| 0 <= i < |a| && a[i].grantID == id && a[i].revokedAt.None? && b[i].revokedAt.Some?;
      assert b[i].grantID == id;
    }
    if IsRevoked(b, id) && !IsRevoked(a, id) {
      var i :| 0 <= i < |b| && b[i].grantID == id && b[i].revokedAt.Some?;
      assert Revoked(a[i], b[i]);
      assert b[i] in list;
    }
    if IsRevoked(a, id) {
      var i :| 0 <= i < |a| && a[i].grantID == id && a[i].revokedAt.Some?;
      assert b[i] == a[i];
    }
  }

  /** A cascade keeps the account exactly if its caller names its events revocations, or it revokes nothing. */
  lemma CascadeAccountedExactly(db: Db, c: Cascade)
    requires Accounted(db)
    ensures Accounted(RevokeWhere(db, c).1) <==> c.actor.event.GrantRevoked? || RevokeWhere(db, c).0 == []
  {
    var (list, db') := RevokeWhere(db, c);
    CascadeTracks(db.grants, c);
    if c.actor.event.GrantRevoked? || list == [] {
      forall id ensures RevocationsOf(db'.audit, id) == if IsRevoked(db'.grants, id) then 1 else 0 {
        EventsCounted(db.audit, list, c.actor, id);
        TrackedRevocations(db.grants, db'.grants, list, id);
      }
    } else {
      Unaccounted(db, db', list, c.actor);
    }
  }

  /** Revocations recorded under another name are missing from the account. */
  lemma Unaccounted(db: Db, db': Db, list: seq<GrantRow>, actor: Actor)
    requires Accounted(db) && Tracks(db.grants, db'.grants, list) && UniqueIds(list)
    requires db'.audit == db.audit + EventsFor(list, actor) && list != [] && !actor.event.GrantRevoked?
    ensures !Accounted(db')
  {
    var id := list[0].grantID;
    assert Names(list, id);
    EventsCounted(db.audit, list, actor, id);
    TrackedRevocations(db.grants, db'.grants, list, id);
    assert RevocationsOf(db.audit, id) == if IsRevoked(db.grants, id) then 1 else 0;
    assert RevocationsOf(db'.audit, id) == 0 && IsRevoked(db'.grants, id);
  }

  /** And so does a single revocation, unless the grant was revoked already. */
  lemma OneAccountedExactly(db: Db, id: Text, reason: Text, actor: Actor, now: int)
    requires Accounted(db) && RevokeOne(db, id, reason, actor, now).Some?
    ensures Accounted(RevokeOne(db, id, reason, actor, now).value) <==>
            actor.event.GrantRevoked? || IsRevoked(db.grants, id)
  {
    var k := IndexOf(db.grants, id);
    if db.grants[k].revokedAt.None? {
      OneStamped(db, k, reason, actor, now);
      assert !IsRevoked(db.grants, id);
    }
  }

  lemma OneStamped(db: Db, k: nat, reason: Text, actor: Actor, now: int)
    requires Accounted(db) && k < |db.grants| && db.grants[k].revokedAt.None?
    ensures var g := Stamp(db.grants[k], reason, now);
            Accounted(db.(grants := db.grants[k := g], audit := db.audit + [EventFor(g, actor)])) <==>
            actor.event.GrantRevoked?
  {
    var g := Stamp(db.grants[k], reason, now);
    var rows := db.grants[k := g];
    assert rows[k] == g;
    assert Tracks(db.grants, rows, [g]);
    assert EventsFor([g], actor) == [EventFor(g, actor)];
    if actor.event.GrantRevoked? {
      forall other ensures RevocationsOf(db.audit + [EventFor(g, actor)], other) == if IsRevoked(rows, other) then 1 else 0 {
        EventsCounted(db.audit, [g], actor, other);
        TrackedRevocations(db.grants, rows, [g], other);
      }
    } else {
      Unaccounted(db, db.(grants := rows, audit := db.audit + [EventFor(g, actor)]), [g], actor);
    }
  }

  lemma RecordAccounted(db: Db, g: GrantRow, e: AuditEvent)
    requires Accounted(db) && g.revokedAt.None? && e.event.GrantCreated? && RecordGrant(db, g, e).Some?
    ensures Accounted(RecordGrant(db, g, e).value)
  {
    var rows := db.grants + [g];
    forall id ensures RevocationsOf(db.audit + [e], id) == if IsRevoked(rows, id) then 1 else 0 {
      OneMore(db.audit, e, id);
      assert forall i | 0 <= i < |db.grants| :: rows[i] == db.grants[i];
      assert IsRevoked(rows, id) <==> IsRevoked(db.grants, id);
    }
  }

  lemma AppendAccounted(db: Db, e: AuditEvent)
    requires Accounted(db) && !e.event.GrantRevoked?
    ensures Accounted(db.(audit := db.audit + [e]))
  {
    forall id ensures RevocationsOf(db.audit + [e], id) == RevocationsOf(db.audit, id) {
      OneMore(db.audit, e, id);
    }
  }

  lemma HappenAccounted(db: Db, ev: Event)
    requires Accounted(db) && Possible(ev)
    ensures Accounted(Happen(db, ev))
  {
    match ev {
      case Records(g, e) => if RecordGrant(db, g, e).Some? { RecordAccounted(db, g, e); }
      case Revokes(id, reason, actor, now) =>
        if RevokeOne(db, id, reason, actor, now).Some? { OneAccountedExactly(db, id, reason, actor, now); }
      case Cascades(c) => CascadeAccountedExactly(db, c);
      case Creates(r, actorID) =>
        AppendAccounted(db, AuditEvent(OperatorLogin, actorID, [], [], [], r.sessionID, []));
      case EndsSession(id, reason, actorID, now) =>
        AppendAccounted(db, AuditEvent(if reason == LOGOUT then OperatorLogout else SessionEnded, actorID, [], [], [], id, reason));
      case Appends(e) => AppendAccounted(db, e);
    }
  }

  lemma {:induction false} RunAccounted(db: Db, events: seq<Event>)
    requires Accounted(db) && forall i | 0 <= i < |events| :: Possible(events[i])
    ensures Accounted(Run(db, events))
    decreases |events|
  {
    if events != [] {
      HappenAccounted(db, events[0]);
      RunAccounted(Happen(db, events[0]), events[1..]);
    }
  }

  /** After every run of these transactions from an empty store, a grant has one revocation event if it is
      revoked, and none otherwise. */
  lemma OneEventPerRevocation(events: seq<Event>, id: Text)
    requires forall i | 0 <= i < |events| :: Possible(events[i])
    ensures var db := Run(Db([], [], []), events);
            RevocationsOf(db.audit, id) == if IsRevoked(db.grants, id) then 1 else 0
  {
    RunAccounted(Db([], [], []), events);
  }
}
