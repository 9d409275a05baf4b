/** The relay's register of running streams, by the grant that authorized each. */
module LiveStreams {
  import opened Bytes
  import opened Strings

  type Handle = nat

  /** The two ends of one joined stream. */
  datatype Pair = Pair(operator: Handle, agent: Handle)

  type Streams = map<nat, Pair>
  type Register = map<Text, Streams>

  predicate Holds(reg: Register, g: Text, id: nat) {
    g in reg && id in reg[g]
  }

  /** No grant keeps an empty inner map, and no identifier is under two grants. */
  ghost predicate Tidy(reg: Register) {
    && (forall g | g in reg :: reg[g] != map[])
    && (forall g, h, id: nat | Holds(reg, g, id) && Holds(reg, h, id) :: g == h)
  }

  function AddTo(reg: Register, g: Text, id: nat, p: Pair): Register {
    reg[g := (if g in reg then reg[g] else map[])[id := p]]
  }

  function RemoveFrom(reg: Register, g: Text, id: nat): Register {
    if g !in reg then reg
    else
      var streams := reg[g] - {id};
      if streams == map[] then reg - {g} else reg[g := streams]
  }

  function Drop(reg: Register, grants: set<Text>): Register {
    reg - grants
  }

  function AsSet(grants: seq<Text>): set<Text> {
    set g | g in grants
  }

  /** The streams registered under any of these grants. */
  ghost function Under(reg: Register, grants: set<Text>): set<nat> {
    set g, id | g in reg && g in grants && id in reg[g] :: id
  }

  lemma AddHolds(reg: Register, g: Text, id: nat, p: Pair)
    ensures forall h, i: nat :: Holds(AddTo(reg, g, id, p), h, i) <==> Holds(reg, h, i) || (h == g && i == id)
    ensures AddTo(reg, g, id, p)[g][id] == p
    ensures forall h, i: nat | Holds(reg, h, i) && i != id :: AddTo(reg, g, id, p)[h][i] == reg[h][i]
  {
  }

  lemma RemoveHolds(reg: Register, g: Text, id: nat)
    ensures forall h, i: nat :: Holds(RemoveFrom(reg, g, id), h, i) <==> Holds(reg, h, i) && !(h == g && i == id)
    ensures forall h, i: nat | Holds(RemoveFrom(reg, g, id), h, i) :: RemoveFrom(reg, g, id)[h][i] == reg[h][i]
  {
    if g in reg {
      var streams := reg[g] - {id};
      assert forall i :: i in streams <==> i in reg[g] && i != id;
      if streams == map[] {
        assert forall i | i in reg[g] :: i == id;
      }
    }
  }

  lemma AddTidy(reg: Register, g: Text, id: nat, p: Pair)
    requires Tidy(reg) && forall h :: !Holds(reg, h, id)
    ensures Tidy(AddTo(reg, g, id, p))
  {
    AddHolds(reg, g, id, p);
    assert id in AddTo(reg, g, id, p)[g];
  }

  lemma RemoveTidy(reg: Register, g: Text, id: nat)
    requires Tidy(reg)
    ensures Tidy(RemoveFrom(reg, g, id))
  {
    RemoveHolds(reg, g, id);
  }

  lemma DropHoldsAt(reg: Register, grants: set<Text>, g: Text, id: nat)
    ensures Holds(Drop(reg, grants), g, id) <==> Holds(reg, g, id) && g !in grants
    ensures Holds(Drop(reg, grants), g, id) ==> Drop(reg, grants)[g][id] == reg[g][id]
  {
  }

  lemma DropHolds(reg: Register, grants: set<Text>)
    ensures forall h, i: nat :: Holds(Drop(reg, grants), h, i) <==> Holds(reg, h, i) && h !in grants
    ensures forall h, i: nat | Holds(Drop(reg, grants), h, i) :: Drop(reg, grants)[h][i] == reg[h][i]
  {
  }

  lemma DropTidy(reg: Register, grants: set<Text>)
    requires Tidy(reg)
    ensures Tidy(Drop(reg, grants))
  {
    DropHolds(reg, grants);
  }

  ghost function Sum(reg: Register, grants: set<Text>): nat
    requires grants <= reg.Keys
  {
    if grants == {} then 0
    else
      var g :| g in grants;
      |reg[g]| + Sum(reg, grants - {g})
  }

  lemma {:induction false} SumSplit(reg: Register, grants: set<Text>, g: Text)
    requires grants <= reg.Keys && g in grants
    ensures Sum(reg, grants) == |reg[g]| + Sum(reg, grants - {g})
    decreases grants
  {
    var h :| h in grants && Sum(reg, grants) == |reg[h]| + Sum(reg, grants - {h});
    if h != g {
      SumSplit(reg, grants - {h}, g);
      SumSplit(reg, grants - {g}, h);
      assert grants - {h} - {g} == grants - {g} - {h};
    }
  }

  lemma {:induction false} SumSame(reg: Register, other: Register, grants: set<Text>)
    requires grants <= reg.Keys && grants <= other.Keys && forall g | g in grants :: reg[g] == other[g]
    ensures Sum(reg, grants) == Sum(other, grants)
    decreases grants
  {
    if grants != {} {
      var g :| g in grants;
      SumSame(reg, other, grants - {g});
      SumSplit(reg, grants, g);
      SumSplit(other, grants, g);
    }
  }

  /** How many streams a register holds in all. */
  ghost function Total(reg: Register): nat {
    Sum(reg, reg.Keys)
  }

  lemma TotalSplit(reg: Register, g: Text)
    ensures Total(reg) == Total(reg - {g}) + if g in reg then |reg[g]| else 0
  {
    var rest := reg - {g};
    assert rest.Keys == reg.Keys - {g};
    SumSame(reg, rest, rest.Keys);
    if g in reg {
      SumSplit(reg, reg.Keys, g);
    } else {
      assert reg.Keys == rest.Keys;
    }
  }

  /** Every stream under these grants is among the doomed. */
  ghost predicate Covers(reg: Register, grants: set<Text>, doomed: seq<Pair>) {
    forall g, id: nat | g in grants && Holds(reg, g, id) :: reg[g][id] in doomed
  }

  /** Whether a pair is registered under one of these grants. */
  ghost predicate Doomed(reg: Register, grants: set<Text>, p: Pair) {
    exists g, id: nat :: g in grants && Holds(reg, g, id) && reg[g][id] == p
  }

  /** Nothing but streams under these grants is among the doomed. */
  ghost predicate OnlyFrom(reg: Register, grants: set<Text>, doomed: seq<Pair>) {
    forall i | 0 <= i < |doomed| :: Doomed(reg, grants, doomed[i])
  }

  lemma OnlyFromMore(reg: Register, grants: set<Text>, g: Text, doomed: seq<Pair>, pairs: seq<Pair>)
    requires OnlyFrom(reg, grants, doomed) && OnlyFrom(Drop(reg, grants), {g}, pairs)
    ensures OnlyFrom(reg, grants + {g}, doomed + pairs)
  {
    DropHolds(reg, grants);
    forall i | 0 <= i < |doomed + pairs| ensures Doomed(reg, grants + {g}, (doomed + pairs)[i]) {
      var p := (doomed + pairs)[i];
      if i < |doomed| {
        var h, id: nat :| h in grants && Holds(reg, h, id) && reg[h][id] == p;
        assert h in grants + {g};
      } else {
        var h, id: nat :| h in {g} && Holds(Drop(reg, grants), h, id) && Drop(reg, grants)[h][id] == p;
        assert h in grants + {g} && Holds(reg, h, id) && reg[h][id] == p;
      }
    }
  }

  lemma CoversMore(reg: Register, grants: set<Text>, g: Text, doomed: seq<Pair>, pairs: seq<Pair>)
    requires Covers(reg, grants, doomed) && Covers(Drop(reg, grants), {g}, pairs)
    ensures Covers(reg, grants + {g}, doomed + pairs) && Drop(Drop(reg, grants), {g}) == Drop(reg, grants + {g})
  {
    DropHolds(reg, grants);
    forall h, id: nat | h in grants + {g} && Holds(reg, h, id) ensures reg[h][id] in doomed + pairs {
      if h !in grants {
        assert Holds(Drop(reg, grants), g, id);
      }
    }
  }

  /** Both ends of each pair, in order. */
  function Ends(pairs: seq<Pair>): seq<Handle> {
    if pairs == [] then []
    else
      var last := pairs[|pairs| - 1];
      Ends(pairs[..|pairs| - 1]) + [last.operator, last.agent]
  }

  predicate EndOf(h: Handle, p: Pair) {
    h == p.operator || h == p.agent
  }

  lemma {:induction false} EndsLength(pairs: seq<Pair>)
    ensures |Ends(pairs)| == 2 * |pairs|
  {
    if pairs != [] {
      EndsLength(pairs[..|pairs| - 1]);
    }
  }

  lemma {:induction false} EndsOnly(pairs: seq<Pair>, h: Handle) returns (i: nat)
    requires h in Ends(pairs)
    ensures i < |pairs| && EndOf(h, pairs[i])
  {
    var n := |pairs| - 1;
    if EndOf(h, pairs[n]) {
      i := n;
    } else {
      i := EndsOnly(pairs[..n], h);
    }
  }

  lemma {:induction false} EndsHave(pairs: seq<Pair>, i: nat)
    requires i < |pairs|
    ensures pairs[i].operator in Ends(pairs) && pairs[i].agent in Ends(pairs)
  {
    var n := |pairs| - 1;
    if i < n {
      EndsHave(pairs[..n], i);
    }
  }

  /** Whether a handle is an end of a pair registered under one of these grants. */
  ghost predicate DoomedEnd(reg: Register, grants: set<Text>, h: Handle) {
    exists p: Pair :: Doomed(reg, grants, p) && EndOf(h, p)
  }

  /** The ends of the doomed are exactly the ends of the streams under these grants. */
  lemma DoomedEnds(reg: Register, grants: set<Text>, doomed: seq<Pair>)
    requires Covers(reg, grants, doomed) && OnlyFrom(reg, grants, doomed)
    ensures |Ends(doomed)| == 2 * |doomed|
    ensures forall h | h in Ends(doomed) :: DoomedEnd(reg, grants, h)
    ensures forall g, id: nat | g in grants && Holds(reg, g, id) ::
              reg[g][id].operator in Ends(doomed) && reg[g][id].agent in Ends(doomed)
  {
    EndsLength(doomed);
    forall h | h in Ends(doomed) ensures DoomedEnd(reg, grants, h) {
      var i := EndsOnly(doomed, h);
      assert Doomed(reg, grants, doomed[i]);
    }
    forall g, id: nat | g in grants && Holds(reg, g, id)
      ensures reg[g][id].operator in Ends(doomed) && reg[g][id].agent in Ends(doomed)
    {
      var i :| 0 <= i < |doomed| && doomed[i] == reg[g][id];
      EndsHave(doomed, i);
    }
  }

  class Live {
    var byGrant: Register
    var nextID: nat
    /** The ends that have been told to reset, in order. */
    var resets: seq<Handle>

    ghost predicate Valid()
      reads this
    {
      Tidy(byGrant) && forall g, id: nat | Holds(byGrant, g, id) :: id <= nextID
    }

    constructor ()
      ensures Valid() && byGrant == map[] && nextID == 0 && resets == []
    {
      byGrant, nextID, resets := map[], 0, [];
    }

    /** Zero when there is no grant to register under. */
    method Add(g: Text, p: Pair) returns (id: nat)
      requires Valid()
      modifies this`byGrant, this`nextID
      ensures Valid()
      ensures if g == [] then id == 0 && byGrant == old(byGrant) && nextID == old(nextID)
              else id == nextID == old(nextID) + 1 && byGrant == AddTo(old(byGrant), g, id, p)
    {
      if g == [] {
        return 0;
      }
      nextID := nextID + 1;
      id := nextID;
      AddTidy(byGrant, g, id, p);
      AddHolds(byGrant, g, id, p);
      var streams := if g in byGrant then byGrant[g] else map[];
      byGrant := byGrant[g := streams[id := p]];
    }

    method Release(g: Text, id: nat)
      requires Valid()
      modifies this`byGrant
      ensures Valid() && byGrant == RemoveFrom(old(byGrant), g, id)
    {
      RemoveTidy(byGrant, g, id);
      RemoveHolds(byGrant, g, id);
      if g in byGrant {
        var streams := byGrant[g] - {id};
        if streams == map[] {
          byGrant := byGrant - {g};
        } else {
          byGrant := byGrant[g := streams];
        }
      }
    }

    /** Takes every stream of one grant off the register. */
    method Collect(g: Text) returns (doomed: seq<Pair>)
      requires Valid()
      modifies this`byGrant
      ensures Valid() && byGrant == Drop(old(byGrant), {g})
      ensures |doomed| == if g in old(byGrant) then |old(byGrant)[g]| else 0
      ensures Covers(old(byGrant), {g}, doomed)
      ensures OnlyFrom(old(byGrant), {g}, doomed)
    {
      doomed := [];
      if g in byGrant {
        var streams := byGrant[g];
        var left := streams.Keys;
        while left != {}
          invariant left <= streams.Keys && |doomed| + |left| == |streams|
          invariant forall id | id in streams && id !in left :: streams[id] in doomed
          invariant forall p | p in doomed :: exists id :: id in streams && streams[id] == p
          decreases |left|
        {
          var id :| id in left;
          doomed := doomed + [streams[id]];
          left := left - {id};
        }
        forall i | 0 <= i < |doomed| ensures Doomed(byGrant, {g}, doomed[i]) {
          assert doomed[i] in doomed;
          var id :| id in streams && streams[id] == doomed[i];
          assert g in {g} && Holds(byGrant, g, id);
        }
      }
      DropTidy(byGrant, {g});
      DropHolds(byGrant, {g});
      byGrant := byGrant - {g};
    }

    /** Takes every stream of all these grants off the register. */
    method CollectAll(grants: seq<Text>) returns (doomed: seq<Pair>)
      requires Valid()
      modifies this`byGrant
      ensures Valid() && byGrant == Drop(old(byGrant), AsSet(grants))
      ensures |doomed| + Total(byGrant) == Total(old(byGrant))
      ensures Covers(old(byGrant), AsSet(grants), doomed) && OnlyFrom(old(byGrant), AsSet(grants), doomed)
    {
      doomed := [];
      assert byGrant - AsSet([]) == byGrant;
      for i := 0 to |grants|
        invariant Valid() && byGrant == Drop(old(byGrant), AsSet(grants[..i]))
        invariant |doomed| + Total(byGrant) == Total(old(byGrant))
        invariant Covers(old(byGrant), AsSet(grants[..i]), doomed)
        invariant OnlyFrom(old(byGrant), AsSet(grants[..i]), doomed)
      {
        var g := grants[i];
        TotalSplit(byGrant, g);
        var pairs := Collect(g);
        CoversMore(old(byGrant), AsSet(grants[..i]), g, doomed, pairs);
        OnlyFromMore(old(byGrant), AsSet(grants[..i]), g, doomed, pairs);
        assert AsSet(grants[..i + 1]) == AsSet(grants[..i]) + {g};
        doomed := doomed + pairs;
      }
      assert grants[..|grants|] == grants;
    }

    /** Resets both ends of every stream under any of these grants and no other end, and says how many
        streams there were. */
    method Terminate(grants: seq<Text>) returns (n: nat)
      requires Valid()
      modifies this
      ensures Valid() && byGrant == Drop(old(byGrant), AsSet(grants)) && nextID == old(nextID)
      ensures n + Total(byGrant) == Total(old(byGrant))
      ensures old(resets) <= resets && |resets| == |old(resets)| + 2 * n
      ensures forall g, id: nat | g in grants && Holds(old(byGrant), g, id) ::
                old(byGrant)[g][id].operator in resets && old(byGrant)[g][id].agent in resets
      ensures forall h | h in resets[|old(resets)|..] :: DoomedEnd(old(byGrant), AsSet(grants), h)
    {
      var doomed := CollectAll(grants);
      n := |doomed|;
      ghost var before := resets;
      ResetAll(doomed);
      DoomedEnds(old(byGrant), AsSet(grants), doomed);
      assert resets[|before|..] == Ends(doomed);
    }

    method ResetAll(doomed: seq<Pair>)
      modifies this`resets
      ensures resets == old(resets) + Ends(doomed)
    {
      for i := 0 to |doomed|
        invariant resets == old(resets) + Ends(doomed[..i])
      {
        resets := resets + [doomed[i].operator, doomed[i].agent];
        assert doomed[..i + 1][..i] == doomed[..i];
      }
      assert doomed[..|doomed|] == doomed;
    }

    method Count() returns (n: nat)
      ensures n == Total(byGrant)
    {
      n := 0;
      var left := byGrant;
      while left != map[]
        invariant n + Total(left) == Total(byGrant)
        decreases |left|
      {
        var g :| g in left;
        TotalSplit(left, g);
        n := n + |left[g]|;
        left := left - {g};
      }
    }
  }
}
