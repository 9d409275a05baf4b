/** Allow-only policy rules. */
module Policy {
  import opened Bytes
  import opened Strings
  import opened Grants

  const ALLOW: Text := Ascii("allow")
  const OK: Text := Ascii("ok")
  const POLICY_DENIED: Text := Ascii("policy_denied")

  datatype Rule = Rule(
    policyID: Text,
    principals: seq<Text>,
    devices: seq<Text>,
    resources: seq<Text>,
    maxTTL: int,
    effect: Text)

  datatype Decision = Decision(allowed: bool, maxTTL: int, policyID: Text, reason: Text)

  /** Who asks for what. */
  datatype Ask = Ask(userID: Text, deviceID: Text, resourceID: Text) {
    predicate Complete() {
      userID != [] && deviceID != [] && resourceID != []
    }
  }

  const DENIED := Decision(false, 0, [], POLICY_DENIED)

  predicate Matches(r: Rule, a: Ask) {
    r.effect == ALLOW && a.userID in r.principals && a.deviceID in r.devices && a.resourceID in r.resources
  }

  /** A rule's lifetime, with none and too much both meaning the ceiling. */
  function Clamped(r: Rule): (ttl: int)
    ensures 0 < ttl <= MAX_GRANT_TTL
  {
    if r.maxTTL <= 0 || r.maxTTL > MAX_GRANT_TTL then MAX_GRANT_TTL else r.maxTTL
  }

  /** How one more rule changes the best decision so far. */
  function Improved(best: Decision, r: Rule, a: Ask): Decision {
    if Matches(r, a) && (!best.allowed || Clamped(r) > best.maxTTL) then Decision(true, Clamped(r), r.policyID, OK)
    else best
  }

  function Best(rules: seq<Rule>, a: Ask): Decision {
    if rules == [] then DENIED else Improved(Best(rules[..|rules| - 1], a), rules[|rules| - 1], a)
  }

  function Decide(rules: seq<Rule>, a: Ask): Decision {
    if a.Complete() then Best(rules, a) else DENIED
  }

  method Contains(list: seq<Text>, want: Text) returns (found: bool)
    ensures found <==> want in list
  {
    for i := 0 to |list|
      invariant want !in list[..i]
    {
      if list[i] == want {
        return true;
      }
    }
    return false;
  }

  method Evaluate(rules: seq<Rule>, userID: Text, deviceID: Text, resourceID: Text) returns (best: Decision)
    ensures best == Decide(rules, Ask(userID, deviceID, resourceID))
  {
    ghost var a := Ask(userID, deviceID, resourceID);
    best := DENIED;
    if userID == [] || deviceID == [] || resourceID == [] {
      return;
    }
    for i := 0 to |rules|
      invariant best == Best(rules[..i], a)
    {
      assert rules[..i + 1][..i] == rules[..i];
      var r := rules[i];
      if r.effect == ALLOW {
        var p := Contains(r.principals, userID);
        var d := Contains(r.devices, deviceID);
        var s := Contains(r.resources, resourceID);
        if p && d && s {
          var ttl := if r.maxTTL <= 0 || r.maxTTL > MAX_GRANT_TTL then MAX_GRANT_TTL else r.maxTTL;
          if !best.allowed || ttl > best.maxTTL {
            best := Decision(true, ttl, r.policyID, OK);
          }
        }
      }
    }
    assert rules[..|rules|] == rules;
  }

  /** No matching rule offers more. */
  ghost predicate Tops(rules: seq<Rule>, a: Ask, ttl: int) {
    forall i | 0 <= i < |rules| && Matches(rules[i], a) :: Clamped(rules[i]) <= ttl
  }

  /** The first matching rule to offer the most. */
  ghost predicate Names(rules: seq<Rule>, a: Ask, i: nat, d: Decision) {
    && i < |rules| && Matches(rules[i], a)
    && d == Decision(true, Clamped(rules[i]), rules[i].policyID, OK)
    && Tops(rules, a, d.maxTTL)
    && (forall j | 0 <= j < i && Matches(rules[j], a) :: Clamped(rules[j]) < d.maxTTL)
  }

  lemma LastRuleWins(rules: seq<Rule>, a: Ask)
    requires rules != [] && Matches(rules[|rules| - 1], a)
    requires var front := rules[..|rules| - 1]; var d := Best(front, a);
             if d.allowed then Tops(front, a, d.maxTTL) && Clamped(rules[|rules| - 1]) > d.maxTTL
             else forall k | 0 <= k < |front| :: !Matches(front[k], a)
    ensures Names(rules, a, |rules| - 1, Best(rules, a))
  {
    var front := rules[..|rules| - 1];
    assert forall k | 0 <= k < |front| :: front[k] == rules[k];
  }

  lemma EarlierRuleStays(rules: seq<Rule>, a: Ask, i: nat)
    requires rules != []
    requires var front := rules[..|rules| - 1]; Names(front, a, i, Best(front, a))
    requires Matches(rules[|rules| - 1], a) ==> Clamped(rules[|rules| - 1]) <= Best(rules[..|rules| - 1], a).maxTTL
    ensures Names(rules, a, i, Best(rules, a))
  {
    var front := rules[..|rules| - 1];
    assert forall k | 0 <= k < |front| :: front[k] == rules[k];
  }

  lemma {:induction false} BestNames(rules: seq<Rule>, a: Ask) returns (i: nat)
    ensures if exists k | 0 <= k < |rules| :: Matches(rules[k], a) then Names(rules, a, i, Best(rules, a))
            else Best(rules, a) == DENIED
  {
    if rules == [] {
      i := 0;
    } else {
      var n := |rules| - 1;
      var front, last := rules[..n], rules[n];
      i := BestNames(front, a);
      assert forall k | 0 <= k < n :: front[k] == rules[k];
      var d := Best(front, a);
      if Matches(last, a) && (!d.allowed || Clamped(last) > d.maxTTL) {
        LastRuleWins(rules, a);
        i := n;
      } else if d.allowed {
        EarlierRuleStays(rules, a, i);
      }
    }
  }

  /** A request is allowed exactly when it names all three and some allow rule names all three; the decision
      is then that of the first rule attaining the greatest clamped lifetime, and otherwise the denial. */
  lemma DecideExactly(rules: seq<Rule>, a: Ask) returns (i: nat)
    ensures Decide(rules, a).allowed <==> a.Complete() && exists k | 0 <= k < |rules| :: Matches(rules[k], a)
    ensures Decide(rules, a).allowed ==> Names(rules, a, i, Decide(rules, a))
    ensures !Decide(rules, a).allowed ==> Decide(rules, a) == DENIED
  {
    i := BestNames(rules, a);
  }

  /** The rules are a union: only which rules there are matters, and more of them never remove or shorten
      access. */
  lemma MoreRulesNeverTakeAway(rules: seq<Rule>, more: seq<Rule>, a: Ask)
    requires forall i | 0 <= i < |rules| :: rules[i] in more
    ensures Decide(rules, a).allowed ==> Decide(more, a).allowed && Decide(rules, a).maxTTL <= Decide(more, a).maxTTL
  {
    var i := DecideExactly(rules, a);
    var j := DecideExactly(more, a);
    if Decide(rules, a).allowed {
      assert rules[i] in more;
      var k :| 0 <= k < |more| && more[k] == rules[i];
      assert Matches(more[k], a);
    }
  }

  /** Reordering the rules changes nothing but, on ties, which rule is named. */
  lemma OrderIsIrrelevant(rules: seq<Rule>, other: seq<Rule>, a: Ask)
    requires multiset(rules) == multiset(other)
    ensures Decide(rules, a).(policyID := []) == Decide(other, a).(policyID := [])
  {
    forall i | 0 <= i < |rules| ensures rules[i] in other {
      assert rules[i] in multiset(other);
    }
    forall i | 0 <= i < |other| ensures other[i] in rules {
      assert other[i] in multiset(rules);
    }
    MoreRulesNeverTakeAway(rules, other, a);
    MoreRulesNeverTakeAway(other, rules, a);
    var i := DecideExactly(rules, a);
    var j := DecideExactly(other, a);
  }

  /** The rule named is the first of those that offer the most, whatever else there is. */
  lemma TiesNameTheFirst(rules: seq<Rule>, a: Ask, i: nat)
    requires a.Complete() && i < |rules| && Matches(rules[i], a) && Tops(rules, a, Clamped(rules[i]))
    requires forall j | 0 <= j < i && Matches(rules[j], a) :: Clamped(rules[j]) < Clamped(rules[i])
    ensures Decide(rules, a) == Decision(true, Clamped(rules[i]), rules[i].policyID, OK)
  {
    var k := DecideExactly(rules, a);
    assert Names(rules, a, k, Decide(rules, a));
    assert Clamped(rules[k]) == Clamped(rules[i]);
    assert k == i;
  }

  /** So where two rules tie, which is named depends on their order exactly if they have different names. */
  lemma TiesDependOnOrder(r1: Rule, r2: Rule, a: Ask)
    requires a.Complete() && Matches(r1, a) && Matches(r2, a) && Clamped(r1) == Clamped(r2)
    ensures Decide([r1, r2], a).policyID == r1.policyID && Decide([r2, r1], a).policyID == r2.policyID
    ensures Decide([r1, r2], a) == Decide([r2, r1], a) <==> r1.policyID == r2.policyID
  {
    TiesNameTheFirst([r1, r2], a, 0);
    TiesNameTheFirst([r2, r1], a, 0);
  }
}
