/** From policy to dial: the issuer that signs grants, the agent that checks them, and a relay between the two
    that may present anything. */
module Access {
  import opened Bytes
  import opened Strings
  import opened Grants
  import opened Signing
  import opened Policy
  import GrantStore

  // The issuer

  datatype Request = Request(
    orgID: Text,
    ask: Ask,
    requestedTTL: int,
    maxBytes: uint64,
    sessionID: Text)

  function GrantedTTL(requested: int, ceiling: int): int {
    var ttl := if requested <= 0 || requested > ceiling then ceiling else requested;
    if ttl > MAX_GRANT_TTL then MAX_GRANT_TTL else ttl
  }

  /** The grant Issue hands to Sign. */
  function Drafted(req: Request, ttl: int, keyID: Text, grantID: Text, clock: Instant): Grant {
    var now := Truncate(clock);
    Grant(0, keyID, grantID, req.orgID, req.ask.userID, req.ask.deviceID, req.ask.resourceID, now, now + ttl, req.maxBytes)
  }

  datatype Issued = Denied | Failed(why: Failure) | Unrecorded | Granted(signed: SignedGrant)

  /** Evaluates policy and, if it allows, signs. */
  function Issue(rules: seq<Rule>, req: Request, keyID: Text, grantID: Text, clock: Instant, k: KeyPair): Issued {
    var d := Decide(rules, req.ask);
    if !d.allowed then Denied
    else
      match Sign(Drafted(req, GrantedTTL(req.requestedTTL, d.maxTTL), keyID, grantID, clock), k)
      case Err(e) => Failed(e)
      case Ok(s) => Granted(s)
  }

  /** A grant comes out exactly when policy allows and a grant identifier was made; it is for exactly what was
      asked, starts now, and lasts as long as the request, or as the best matching rule allows if that is shorter
      or nothing was requested, to the second; never longer than the ceiling. */
  lemma IssueExactly(rules: seq<Rule>, req: Request, keyID: Text, grantID: Text, clock: Instant, k: KeyPair)
    ensures var r := Issue(rules, req, keyID, grantID, clock, k);
            && (r.Granted? <==> Decide(rules, req.ask).allowed && grantID != [])
            && (r.Granted? ==>
                  var g := r.signed.grant;
                  && g.Ids() == [keyID, grantID, req.orgID, req.ask.userID, req.ask.deviceID, req.ask.resourceID]
                  && g.maxBytes == req.maxBytes && g.issuedAt == Truncate(clock)
                  && g.issuedAt <= g.expiresAt
                  && (var most := Decide(rules, req.ask).maxTTL;
                      g.expiresAt == Truncate(g.issuedAt + if 0 < req.requestedTTL < most then req.requestedTTL else most))
                  && g.expiresAt - g.issuedAt <= Decide(rules, req.ask).maxTTL <= MAX_GRANT_TTL
                  && (req.requestedTTL > 0 ==> g.expiresAt - g.issuedAt <= req.requestedTTL))
  {
    var i := DecideExactly(rules, req.ask);
    if Decide(rules, req.ask).allowed {
      var ttl := GrantedTTL(req.requestedTTL, Decide(rules, req.ask).maxTTL);
      TtlBounds(req.requestedTTL, Decide(rules, req.ask).maxTTL);
      var g := Drafted(req, ttl, keyID, grantID, clock);
      TruncateSum(clock, ttl);
      if grantID != [] {
        SignedShape(g, k);
      }
    }
  }

  /** The record of a grant: its own fields, the rule that allowed it and the session it was asked for in. */
  function RowOf(g: Grant, policyID: Text, sessionID: Text): GrantStore.GrantRow {
    GrantStore.GrantRow(
      g.grantID, g.orgID, g.userID, g.deviceID, g.resourceID, policyID,
      if sessionID == [] then None else Some(sessionID),
      Unix(g.issuedAt), Unix(g.expiresAt), g.maxBytes, None, [])
  }

  function EventAbout(event: GrantStore.EventName, req: Request, grantID: Text, reason: Text): GrantStore.AuditEvent {
    GrantStore.AuditEvent(event, req.ask.userID, req.ask.deviceID, req.ask.resourceID, grantID, req.sessionID, reason)
  }

  /** Issue with a store: a denial leaves an event, and a grant that cannot be recorded is not handed out. */
  function IssueInto(db: GrantStore.Db, rules: seq<Rule>, req: Request, keyID: Text, grantID: Text, clock: Instant,
                     k: KeyPair): (Issued, GrantStore.Db)
  {
    var r := Issue(rules, req, keyID, grantID, clock, k);
    match r
    case Denied => (Denied, db.(audit := db.audit + [EventAbout(GrantStore.GrantDenied, req, [], POLICY_DENIED)]))
    case Failed(e) => (Failed(e), db)
    case Unrecorded => (Unrecorded, db)
    case Granted(s) =>
      var row := RowOf(s.grant, Decide(rules, req.ask).policyID, req.sessionID);
      match GrantStore.RecordGrant(db, row, EventAbout(GrantStore.GrantCreated, req, grantID, []))
      case None => (Unrecorded, db)
      case Some(db') => (r, db')
  }

  /** Nothing is handed out that is not on record. A grant comes out exactly when policy allows, an identifier was
      made and is not taken; then one row is added, with the grant's own fields, unrevoked, and one event that
      names it. Otherwise no grant changes, and one event is added exactly for a denial. */
  lemma IssuedIsOnRecord(db: GrantStore.Db, rules: seq<Rule>, req: Request, keyID: Text, grantID: Text, clock: Instant,
                         k: KeyPair)
    ensures var (r, db') := IssueInto(db, rules, req, keyID, grantID, clock, k);
            && (r.Granted? <==>
                  && Decide(rules, req.ask).allowed && grantID != []
                  && forall i | 0 <= i < |db.grants| :: db.grants[i].grantID != grantID)
            && (r.Granted? ==>
                  && |db'.grants| == |db.grants| + 1 && db'.grants[..|db.grants|] == db.grants
                  && |db'.audit| == |db.audit| + 1 && db'.audit[..|db.audit|] == db.audit
                  && (var row, e, g := db'.grants[|db.grants|], db'.audit[|db.audit|], r.signed.grant;
                      && row.grantID == e.grantID == g.grantID == grantID && e.event.GrantCreated?
                      && row.userID == g.userID == req.ask.userID && row.deviceID == g.deviceID == req.ask.deviceID
                      && row.resourceID == g.resourceID == req.ask.resourceID && row.orgID == g.orgID == req.orgID
                      && row.issuedAt * SECOND == g.issuedAt && row.expiresAt * SECOND == g.expiresAt
                      && row.maxBytes == g.maxBytes == req.maxBytes && row.revokedAt.None?))
            && (!r.Granted? ==> db'.grants == db.grants)
            && (!r.Granted? && !r.Denied? ==> db' == db)
            && (r.Denied? ==> |db'.audit| == |db.audit| + 1 && db'.audit[|db.audit|].event.GrantDenied?)
  {
    IssueExactly(rules, req, keyID, grantID, clock, k);
    var r := Issue(rules, req, keyID, grantID, clock, k);
    if r.Granted? {
      IssuedFields(rules, req, keyID, grantID, clock, k);
    }
  }

  lemma FlooredFields(d: Grant)
    ensures var g := Floored(d);
            && g.grantID == d.grantID && g.orgID == d.orgID && g.userID == d.userID && g.deviceID == d.deviceID
            && g.resourceID == d.resourceID && g.maxBytes == d.maxBytes
            && g.issuedAt == Truncate(d.issuedAt) && g.expiresAt == Truncate(d.expiresAt)
  {
  }

  lemma IssuedFields(rules: seq<Rule>, req: Request, keyID: Text, grantID: Text, clock: Instant, k: KeyPair)
    requires Issue(rules, req, keyID, grantID, clock, k).Granted?
    ensures var g := Issue(rules, req, keyID, grantID, clock, k).signed.grant;
            && g.grantID == grantID && g.orgID == req.orgID && g.userID == req.ask.userID
            && g.deviceID == req.ask.deviceID && g.resourceID == req.ask.resourceID && g.maxBytes == req.maxBytes
            && Unix(g.issuedAt) * SECOND == g.issuedAt && Unix(g.expiresAt) * SECOND == g.expiresAt
  {
    var d := Drafted(req, GrantedTTL(req.requestedTTL, Decide(rules, req.ask).maxTTL), keyID, grantID, clock);
    TruncateWhole(d.issuedAt);
    TruncateWhole(d.expiresAt);
    FlooredFields(d.(version := GRANT_VERSION));
    assert Issue(rules, req, keyID, grantID, clock, k).signed.grant == Floored(d.(version := GRANT_VERSION));
  }

  lemma TtlBounds(requested: int, ceiling: int)
    requires 0 < ceiling <= MAX_GRANT_TTL
    ensures 0 < GrantedTTL(requested, ceiling) <= ceiling
    ensures requested > 0 ==> GrantedTTL(requested, ceiling) <= requested
  {
  }

  lemma TruncateSum(clock: Instant, ttl: int)
    requires ttl > 0
    ensures Truncate(Truncate(clock)) == Truncate(clock)
    ensures 0 <= Truncate(Truncate(clock) + ttl) - Truncate(clock) <= ttl
  {
    var n := Unix(clock);
    assert Truncate(clock) == n * SECOND;
    assert Unix(n * SECOND + ttl) == n + ttl / SECOND;
  }

  // The agent

  datatype Resource = Resource(resourceID: Text, protocol: Text, target: Text, maxBytes: uint64, maxDuration: int)

  const TCP: Text := Ascii("tcp")

  predicate ValidResource(r: Resource, loopback: Text -> bool) {
    r.resourceID != [] && r.protocol == TCP && loopback(r.target) && r.maxDuration >= 0
  }

  ghost predicate DistinctIds(declared: seq<Resource>) {
    forall i, j | 0 <= i < j < |declared| :: declared[i].resourceID != declared[j].resourceID
  }

  /** What was declared, under its own identifiers, and nothing else. */
  ghost predicate Lists(list: map<Text, Resource>, declared: seq<Resource>) {
    && (forall i | 0 <= i < |declared| ::
          declared[i].resourceID in list && list[declared[i].resourceID] == declared[i])
    && (forall id | id in list :: list[id].resourceID == id && list[id] in declared)
  }

  lemma ListsMore(list: map<Text, Resource>, declared: seq<Resource>, res: Resource)
    requires Lists(list, declared) && DistinctIds(declared) && res.resourceID !in list
    ensures Lists(list[res.resourceID := res], declared + [res]) && DistinctIds(declared + [res])
  {
  }

  lemma ListedTwice(list: map<Text, Resource>, declared: seq<Resource>, i: nat)
    requires i < |declared| && Lists(list, declared[..i]) && declared[i].resourceID in list
    ensures !DistinctIds(declared)
  {
    var k :| 0 <= k < i && declared[k] == list[declared[i].resourceID];
  }

  /** An allowlist loads exactly when something is declared, all of it is valid and no identifier is declared
      twice; it then holds what was declared, under its own identifiers, and nothing else. */
  method LoadAllowlist(declared: seq<Resource>, loopback: Text -> bool) returns (r: Option<map<Text, Resource>>)
    ensures r.Some? <==>
            && declared != [] && DistinctIds(declared)
            && (forall i | 0 <= i < |declared| :: ValidResource(declared[i], loopback))
    ensures r.Some? ==> Lists(r.value, declared)
  {
    var list := map[];
    for i := 0 to |declared|
      invariant DistinctIds(declared[..i])
      invariant forall k | 0 <= k < i :: ValidResource(declared[k], loopback)
      invariant Lists(list, declared[..i])
    {
      var res := declared[i];
      if !ValidResource(res, loopback) {
        return None;
      }
      if res.resourceID in list {
        ListedTwice(list, declared, i);
        return None;
      }
      ListsMore(list, declared[..i], res);
      assert declared[..i + 1] == declared[..i] + [res];
      list := list[res.resourceID := res];
    }
    assert declared[..|declared|] == declared;
    if |declared| == 0 {
      return None;
    }
    return Some(list);
  }

  /** `loopback` stands for the check that a target is a literal loopback address with a port. */
  datatype Agent = Agent(k: KeyPair, deviceID: Text, allowlist: map<Text, Resource>, loopback: Text -> bool)

  datatype Lookup = Unknown | NotLoopback | Found(resource: Resource)

  function LookUp(a: Agent, resourceID: Text): Lookup {
    if resourceID !in a.allowlist then Unknown
    else if !a.loopback(a.allowlist[resourceID].target) then NotLoopback
    else Found(a.allowlist[resourceID])
  }

  /** Zero means no cap, on either side. */
  function SmallerLimit(a: uint64, b: uint64): uint64 {
    if a == 0 then b else if b == 0 then a else if a < b then a else b
  }

  /** What the grant leaves, or the resource's own limit if that is set and shorter. */
  function Deadline(now: Instant, remaining: nat, maxDuration: int): Instant {
    if maxDuration > 0 && now + maxDuration < now + remaining then now + maxDuration else now + remaining
  }

  datatype Verdict =
    | Refused(reason: Text)
    | Admitted(grant: SignedGrant, resource: Resource, deadline: Instant, budget: uint64)

  /** The agent's decision on a stream's opening payload, in its order: a grant at all, well formed, verified,
      a resource of this agent's, and a far end that proves to be the grant's user. */
  function HandleStream(a: Agent, payload: seq<byte>, now: Instant, provesToBe: Text -> bool): Verdict {
    if payload == [] then Refused(POLICY_DENIED)
    else
      match DecodeGrant(payload)
      case Err(e) => Refused(ReasonForGrant(Some(e)))
      case Ok(s) =>
        var failure := Verify(s, a.k, now, a.deviceID);
        if failure.Some? then Refused(ReasonForGrant(failure))
        else
          match LookUp(a, s.grant.resourceID)
          case Unknown => Refused(Ascii("resource_unknown"))
          case NotLoopback => Refused(Ascii("resource_target_not_loopback"))
          case Found(r) =>
            if !provesToBe(s.grant.userID) then Refused(Ascii("auth_failed"))
            else Admitted(s, r, Deadline(now, Remaining(s, now), r.maxDuration), SmallerLimit(s.grant.maxBytes, r.maxBytes))
  }

  /** Whether a transfer stays within a cap of which zero means none. */
  predicate WithinCap(n: nat, cap: uint64) {
    cap == 0 || n <= cap
  }

  /** The combined cap admits exactly what both caps admit. */
  lemma SmallerLimitIsBoth(a: uint64, b: uint64, n: nat)
    ensures WithinCap(n, SmallerLimit(a, b)) <==> WithinCap(n, a) && WithinCap(n, b)
  {
  }

  /** A session never outlives its grant (or ends at once, in the tolerance after expiry), nor the resource's
      own limit, and nothing shorter is imposed. */
  lemma DeadlineIsBoth(s: SignedGrant, now: Instant, maxDuration: int, t: Instant)
    requires t >= now
    ensures t <= Deadline(now, Remaining(s, now), maxDuration) <==>
            (t <= s.grant.expiresAt || t == now) && (maxDuration > 0 ==> t <= now + maxDuration)
  {
  }

  /** What was issued is let in: a grant straight from the issuer, presented unchanged to its own device inside
      its window, for a resource the agent serves, by the user it names, is admitted with all it grants. */
  lemma IssuedGrantIsAdmitted(rules: seq<Rule>, req: Request, keyID: Text, grantID: Text, clock: Instant,
                              a: Agent, now: Instant, provesToBe: Text -> bool)
    requires Correct(a.k) && Issue(rules, req, keyID, grantID, clock, a.k).Granted?
    requires Short([keyID, grantID, req.orgID, req.ask.userID, req.ask.deviceID, req.ask.resourceID])
    requires Int64(Unix(clock)) && Int64(Unix(clock) + MAX_GRANT_TTL / SECOND)
    requires a.deviceID == req.ask.deviceID && LookUp(a, req.ask.resourceID).Found? && provesToBe(req.ask.userID)
    ensures var s := Issue(rules, req, keyID, grantID, clock, a.k).signed;
            var v := HandleStream(a, Encode(s), now, provesToBe);
            v.Admitted? <==> s.grant.issuedAt - CLOCK_SKEW <= now <= s.grant.expiresAt + CLOCK_SKEW
    ensures var s := Issue(rules, req, keyID, grantID, clock, a.k).signed;
            var v := HandleStream(a, Encode(s), now, provesToBe);
            v.Admitted? ==> v.grant == s && v.resource == a.allowlist[req.ask.resourceID]
  {
    IssueExactly(rules, req, keyID, grantID, clock, a.k);
    var s := Issue(rules, req, keyID, grantID, clock, a.k).signed;
    IssuedTransmissible(rules, req, keyID, grantID, clock, a.k);
    DecodesWhatWasEncoded(s);
    AppearsSame(s.grant, req, keyID, grantID);
    assert Encode(s) != [] by {
      assert |Encode(s)| >= |s.signature|;
    }
    assert s.grant.expiresAt - s.grant.issuedAt <= MAX_GRANT_TTL;
    assert a.k.check(Canonical(s.grant), s.signature);
  }

  lemma AppearsSame(g: Grant, req: Request, keyID: Text, grantID: Text)
    requires g.Ids() == [keyID, grantID, req.orgID, req.ask.userID, req.ask.deviceID, req.ask.resourceID]
    ensures g.userID == req.ask.userID && g.deviceID == req.ask.deviceID && g.resourceID == req.ask.resourceID
  {
    assert g.Ids()[3] == g.userID && g.Ids()[4] == g.deviceID && g.Ids()[5] == g.resourceID;
  }

  lemma IssuedTransmissible(rules: seq<Rule>, req: Request, keyID: Text, grantID: Text, clock: Instant, k: KeyPair)
    requires Correct(k) && Issue(rules, req, keyID, grantID, clock, k).Granted?
    requires Short([keyID, grantID, req.orgID, req.ask.userID, req.ask.deviceID, req.ask.resourceID])
    requires Int64(Unix(clock)) && Int64(Unix(clock) + MAX_GRANT_TTL / SECOND)
    ensures Transmissible(Issue(rules, req, keyID, grantID, clock, k).signed)
  {
    IssueExactly(rules, req, keyID, grantID, clock, k);
    var s := Issue(rules, req, keyID, grantID, clock, k).signed;
    var d := Drafted(req, GrantedTTL(req.requestedTTL, Decide(rules, req.ask).maxTTL), keyID, grantID, clock);
    FlooredSame(d);
    UnixBounds(s.grant.issuedAt, s.grant.expiresAt, clock);
    SignedShape(d, k);
  }

  // The relay's own check

  datatype Forwarding = Reset(reason: Text) | Forward(grant: SignedGrant)

  /** What the relay learns of a grant's revocation: it may not be set up to ask, the lookup may fail, and the
      control plane may have no record of the grant. */
  datatype GrantCheck = NotConfigured | LookupFailed | UnknownGrant | KnownGrant(revoked: bool)

  /** What the relay checks before it opens a stream to the agent: the grant as the agent will, against the
      grant's own device, then whose it is and for which endpoint, then its revocation, where only a definite
      answer refuses. */
  function RelayCheck(k: KeyPair, payload: seq<byte>, now: Instant, userID: Text, deviceID: Text, check: GrantCheck): Forwarding {
    if payload == [] then Reset(POLICY_DENIED)
    else
      match DecodeGrant(payload)
      case Err(e) => Reset(ReasonForGrant(Some(e)))
      case Ok(s) =>
        var failure := Verify(s, k, now, s.grant.deviceID);
        if failure.Some? then Reset(ReasonForGrant(failure))
        else if s.grant.userID != userID then Reset(POLICY_DENIED)
        else if s.grant.deviceID != deviceID then Reset(ReasonForGrant(Some(DeviceMismatch)))
        else
          match check
          case KnownGrant(true) => Reset(Ascii("grant_revoked"))
          case _ => Forward(s)
  }

  /** At the same instant, for a resource the agent serves, the relay forwards exactly what is not known to be
      revoked and what the named agent would admit from that user: its fast refusals refuse nothing else. */
  lemma RelayRefusesWhatTheAgentWould(a: Agent, payload: seq<byte>, now: Instant, userID: Text, check: GrantCheck)
    requires a.deviceID != []
    requires DecodeGrant(payload).Ok? ==> LookUp(a, DecodeGrant(payload).value.grant.resourceID).Found?
    ensures RelayCheck(a.k, payload, now, userID, a.deviceID, check).Forward? <==>
            check != KnownGrant(true) && HandleStream(a, payload, now, u => u == userID).Admitted?
  {
  }

  // Any relay

  /** What the issuer signed, with the rules and the request that led to it. */
  datatype Record = Record(rules: seq<Rule>, req: Request, signed: SignedGrant)

  /** One stream's verdict, with when it was reached, how many grants had been signed by then, and whom the
      far end could prove to be. */
  datatype Admission = Admission(now: Instant, known: nat, provesToBe: Text -> bool, verdict: Verdict)

  datatype World = World(records: seq<Record>, admissions: seq<Admission>)

  /** A relay may present any payload, at any time, as often as it likes. */
  datatype Event =
    | Issues(rules: seq<Rule>, req: Request, grantID: Text, clock: Instant)
    | Presents(payload: seq<byte>, now: Instant, provesToBe: Text -> bool)

  /** The messages this key has signed. */
  ghost predicate SignedMessage(w: World, m: seq<byte>) {
    exists i | 0 <= i < |w.records| :: m == Canonical(w.records[i].signed.grant)
  }

  /** A signature that checks was made by the issuer: nobody else can make one. */
  ghost predicate Unforged(w: World, k: KeyPair, payload: seq<byte>) {
    DecodeGrant(payload).Ok? ==>
      var s := DecodeGrant(payload).value;
      k.check(Canonical(s.grant), s.signature) ==> SignedMessage(w, Canonical(s.grant))
  }

  /** Requests whose identifiers the canonical encoding can tell apart, at times it can represent. */
  predicate Reasonable(req: Request, keyID: Text, grantID: Text, clock: Instant) {
    && |keyID| < 0x1_0000 && |grantID| < 0x1_0000 && |req.orgID| < 0x1_0000
    && |req.ask.userID| < 0x1_0000 && |req.ask.deviceID| < 0x1_0000 && |req.ask.resourceID| < 0x1_0000
    && Int64(Unix(clock)) && Int64(Unix(clock) + MAX_GRANT_TTL / SECOND)
  }

  ghost predicate Possible(w: World, a: Agent, keyID: Text, ev: Event) {
    match ev
    case Issues(_, req, grantID, clock) => Reasonable(req, keyID, grantID, clock)
    case Presents(payload, _, _) => Unforged(w, a.k, payload)
  }

  function Happen(w: World, a: Agent, keyID: Text, ev: Event): World {
    match ev
    case Issues(rules, req, grantID, clock) =>
      var r := Issue(rules, req, keyID, grantID, clock, a.k);
      if r.Granted? then w.(records := w.records + [Record(rules, req, r.signed)]) else w
    case Presents(payload, now, provesToBe) =>
      w.(admissions := w.admissions +
           [Admission(now, |w.records|, provesToBe, HandleStream(a, payload, now, provesToBe))])
  }

  ghost predicate Reaches(w: World, a: Agent, keyID: Text, events: seq<Event>, w': World)
    decreases |events|
  {
    if events == [] then w == w'
    else Possible(w, a, keyID, events[0]) && Reaches(Happen(w, a, keyID, events[0]), a, keyID, events[1..], w')
  }

  /** The grant is one that was issued, field for field, after policy allowed that user that resource on that
      device. */
  ghost predicate Backed(r: Record, g: Grant) {
    && r.signed.grant == g
    && r.req.ask == Ask(g.userID, g.deviceID, g.resourceID)
    && Decide(r.rules, r.req.ask).allowed
    && g.expiresAt - g.issuedAt <= Decide(r.rules, r.req.ask).maxTTL
  }

  ghost predicate Lawful(a: Agent, v: Admission) {
    v.verdict.Admitted? ==>
      var g := v.verdict.grant.grant;
      && (a.deviceID != [] ==> g.deviceID == a.deviceID)
      && g.issuedAt - CLOCK_SKEW <= v.now <= g.expiresAt + CLOCK_SKEW
      && g.resourceID in a.allowlist && a.allowlist[g.resourceID] == v.verdict.resource
      && a.loopback(v.verdict.resource.target)
      && v.provesToBe(g.userID)
  }

  /** A record that was there when the payload was presented backs what was admitted. */
  ghost predicate BackedInTime(w: World, v: Admission) {
    v.verdict.Admitted? ==>
      exists i | 0 <= i < v.known && i < |w.records| :: Backed(w.records[i], v.verdict.grant.grant)
  }

  ghost predicate RecordSound(r: Record) {
    Backed(r, r.signed.grant) && Addressable(r.signed.grant) && r.signed.grant == Floored(r.signed.grant)
  }

  ghost predicate Sound(w: World, a: Agent) {
    && (forall i | 0 <= i < |w.records| :: RecordSound(w.records[i]))
    && (forall j | 0 <= j < |w.admissions| :: Lawful(a, w.admissions[j]) && BackedInTime(w, w.admissions[j]))
  }

  lemma IssuedRecordSound(rules: seq<Rule>, req: Request, keyID: Text, grantID: Text, clock: Instant, k: KeyPair)
    requires Reasonable(req, keyID, grantID, clock)
    requires Issue(rules, req, keyID, grantID, clock, k).Granted?
    ensures RecordSound(Record(rules, req, Issue(rules, req, keyID, grantID, clock, k).signed))
  {
    IssueExactly(rules, req, keyID, grantID, clock, k);
    var g := Issue(rules, req, keyID, grantID, clock, k).signed.grant;
    assert g.userID == g.Ids()[3] && g.deviceID == g.Ids()[4] && g.resourceID == g.Ids()[5];
    assert g == Floored(g) by {
      var d := Drafted(req, GrantedTTL(req.requestedTTL, Decide(rules, req.ask).maxTTL), keyID, grantID, clock);
      TruncateBounds(d.issuedAt);
      TruncateBounds(d.expiresAt);
    }
    UnixBounds(g.issuedAt, g.expiresAt, clock);
  }

  lemma UnixBounds(issued: Instant, expires: Instant, clock: Instant)
    requires issued == Truncate(clock) && issued <= expires <= issued + MAX_GRANT_TTL
    ensures Unix(issued) == Unix(clock) && Unix(clock) <= Unix(expires) <= Unix(clock) + MAX_GRANT_TTL / SECOND
  {
  }

  lemma AdmittedWasChecked(a: Agent, payload: seq<byte>, now: Instant, provesToBe: Text -> bool)
    requires HandleStream(a, payload, now, provesToBe).Admitted?
    ensures var s := HandleStream(a, payload, now, provesToBe).grant;
            DecodeGrant(payload) == Ok(s) && a.k.check(Canonical(s.grant), s.signature)
    ensures forall known :: Lawful(a, Admission(now, known, provesToBe, HandleStream(a, payload, now, provesToBe)))
  {
  }

  /** Two grants with the same canonical bytes, one received and one signed, are the same grant. */
  lemma SameBytesSameGrant(s: SignedGrant, r: Record)
    requires Transmissible(s) && RecordSound(r) && Canonical(s.grant) == Canonical(r.signed.grant)
    ensures Backed(r, s.grant)
  {
    TransmissibleIsFloored(s);
    CanonicalInjective(s.grant, r.signed.grant);
  }

  /** What the agent lets in was signed, byte for byte, and so is a record's grant, field for field. */
  lemma AdmittedIsBacked(w: World, a: Agent, payload: seq<byte>, s: SignedGrant)
    requires forall i | 0 <= i < |w.records| :: RecordSound(w.records[i])
    requires Unforged(w, a.k, payload) && DecodeGrant(payload) == Ok(s) && a.k.check(Canonical(s.grant), s.signature)
    ensures exists i | 0 <= i < |w.records| :: Backed(w.records[i], s.grant)
  {
    AcceptedGrantReencodes(payload);
    assert SignedMessage(w, Canonical(s.grant));
    var i :| 0 <= i < |w.records| && Canonical(s.grant) == Canonical(w.records[i].signed.grant);
    SameBytesSameGrant(s, w.records[i]);
  }

  lemma TransmissibleIsFloored(s: SignedGrant)
    requires Transmissible(s)
    ensures Addressable(s.grant) && Floored(s.grant) == s.grant
  {
  }

  lemma PresentsSound(w: World, a: Agent, keyID: Text, ev: Event)
    requires Sound(w, a) && Possible(w, a, keyID, ev) && ev.Presents?
    ensures Sound(Happen(w, a, keyID, ev), a)
  {
    var v := HandleStream(a, ev.payload, ev.now, ev.provesToBe);
    if v.Admitted? {
      AdmittedWasChecked(a, ev.payload, ev.now, ev.provesToBe);
      AdmittedIsBacked(w, a, ev.payload, v.grant);
    }
    assert Lawful(a, Admission(ev.now, |w.records|, ev.provesToBe, v));
  }

  lemma IssuesSound(w: World, a: Agent, keyID: Text, ev: Event)
    requires Sound(w, a) && Possible(w, a, keyID, ev) && ev.Issues?
    ensures Sound(Happen(w, a, keyID, ev), a)
  {
    if Issue(ev.rules, ev.req, keyID, ev.grantID, ev.clock, a.k).Granted? {
      IssuedRecordSound(ev.rules, ev.req, keyID, ev.grantID, ev.clock, a.k);
      var w' := Happen(w, a, keyID, ev);
      assert forall i | 0 <= i < |w.records| :: w'.records[i] == w.records[i];
    }
  }

  lemma {:induction false} ReachesSound(w: World, a: Agent, keyID: Text, events: seq<Event>, w': World)
    requires Sound(w, a) && Reaches(w, a, keyID, events, w')
    ensures Sound(w', a)
    decreases |events|
  {
    if events != [] {
      if events[0].Issues? {
        IssuesSound(w, a, keyID, events[0]);
      } else {
        PresentsSound(w, a, keyID, events[0]);
      }
      ReachesSound(Happen(w, a, keyID, events[0]), a, keyID, events[1..], w');
    }
  }

  /** Under an arbitrary relay, with unforgeable signatures and identifiers under 65536 bytes: every stream
      the agent admits carries a grant equal field for field to one issued after policy allowed that user that
      resource on that device, and before it was presented; it names this device, if the agent knows its own
      name; it is inside its time window; it leads to a loopback target of this agent's allowlist; and the far
      end proved to be its user. */
  lemma AdmissionsAreAuthorized(a: Agent, keyID: Text, events: seq<Event>, w: World, j: nat)
    requires Reaches(World([], []), a, keyID, events, w)
    requires j < |w.admissions| && w.admissions[j].verdict.Admitted?
    ensures Lawful(a, w.admissions[j])
    ensures exists i | 0 <= i < w.admissions[j].known && i < |w.records| ::
              Backed(w.records[i], w.admissions[j].verdict.grant.grant)
  {
    ReachesSound(World([], []), a, keyID, events, w);
  }

  /** The device check is exactly as strong as the agent's knowledge of its own name: nameless, it admits
      another device's grant. */
  lemma NamelessAgentTakesAnyDevice(a: Agent, g: Grant, now: Instant)
    requires Correct(a.k) && Sign(g, a.k).Ok? && Short(g.Ids()) && g.issuedAt <= now <= g.expiresAt - SECOND
    requires Int64(Unix(g.issuedAt)) && Int64(Unix(g.expiresAt)) && LookUp(a, g.resourceID).Found?
    ensures HandleStream(a, Encode(Sign(g, a.k).value), now, _ => true).Admitted? <==>
            a.deviceID == [] || a.deviceID == g.deviceID
  {
    var s := Sign(g, a.k).value;
    SignedSurvivesTheWire(g, a.k);
    SignedWindowAsAsked(g, a.k, now);
    SignedShape(g, a.k);
    assert s.grant.resourceID == g.Ids()[5] && s.grant.deviceID == g.Ids()[4];
  }
}
