/** Joining streams against revoking grants: every interleaving of the relay's joins, the control plane's
    revocations, and the terminations that follow them. */
module Joining {
  import opened Bytes
  import opened Strings
  import opened LiveStreams

  /** Where one join is. A check that fails with an error passes, on the agent's authority. */
  datatype Phase =
    | Checking
    | Passed(at: nat, failed: bool)
    | Refused
    | Registered(id: nat)
    | Over

  datatype Join = Join(grant: Text, pair: Pair, phase: Phase)

  datatype Fate = Running | Released | Terminated(sweep: nat)

  /** What was registered under identifier k is entry k - 1: with when its check finished, whether that failed,
      and when it was registered. */
  datatype Entry = Entry(grant: Text, pair: Pair, checkedAt: nat, failed: bool, at: nat, fate: Fate)

  /** One call of Terminate: what it took off the register, and the ends it has still to reset. */
  datatype Sweep = Sweep(grants: set<Text>, at: nat, taken: set<nat>, todo: set<Handle>)

  /** `revokedAt` says when each grant's revocation committed; `clock` counts steps. */
  datatype State = State(
    clock: nat,
    revokedAt: map<Text, nat>,
    joins: seq<Join>,
    reg: Register,
    entries: seq<Entry>,
    sweeps: seq<Sweep>,
    resets: set<Handle>)

  const BEGIN := State(0, map[], [], map[], [], [], {})

  datatype Step =
    | Starts(grant: Text, pair: Pair)
    | Checks(j: nat, failed: bool)
    | Fails(j: nat)
    | Registers(j: nat)
    | Ends(j: nat)
    | Revokes(grant: Text)
    | Sweeps(grants: set<Text>)
    | Resets(k: nat, h: Handle)

  predicate CanStep(s: State, step: Step) {
    match step
    case Starts(grant, _) => grant != []
    case Checks(j, _) => j < |s.joins| && s.joins[j].phase.Checking?
    case Fails(j) => j < |s.joins| && s.joins[j].phase.Passed?
    case Registers(j) => j < |s.joins| && s.joins[j].phase.Passed?
    case Ends(j) => j < |s.joins| && s.joins[j].phase.Registered?
    case Revokes(_) => true
    case Sweeps(_) => true
    case Resets(k, h) => k < |s.sweeps| && h in s.sweeps[k].todo
  }

  function SetPhase(s: State, j: nat, p: Phase): State
    requires j < |s.joins|
  {
    s.(joins := s.joins[j := s.joins[j].(phase := p)])
  }

  function Registering(s: State, j: nat): State
    requires j < |s.joins| && s.joins[j].phase.Passed?
  {
    var join := s.joins[j];
    var id := |s.entries| + 1;
    SetPhase(s, j, Registered(id)).(
      reg := AddTo(s.reg, join.grant, id, join.pair),
      entries := s.entries + [Entry(join.grant, join.pair, join.phase.at, join.phase.failed, s.clock, Running)])
  }

  function Ending(s: State, j: nat): State
    requires j < |s.joins| && s.joins[j].phase.Registered?
  {
    var join := s.joins[j];
    var k := join.phase.id - 1;
    SetPhase(s, j, Over).(
      reg := RemoveFrom(s.reg, join.grant, join.phase.id),
      entries := if 0 <= k < |s.entries| && s.entries[k].fate.Running? then s.entries[k := s.entries[k].(fate := Released)]
                 else s.entries)
  }

  /** Both ends of each of these streams. */
  function HandlesOf(s: State, taken: set<nat>): set<Handle> {
    (set id | id in taken && 0 < id <= |s.entries| :: s.entries[id - 1].pair.operator) +
    (set id | id in taken && 0 < id <= |s.entries| :: s.entries[id - 1].pair.agent)
  }

  /** A termination that finds these streams registered under its grants. */
  function Swept(s: State, grants: set<Text>, taken: set<nat>): State {
    s.(reg := Drop(s.reg, grants),
       entries := seq(|s.entries|, i requires 0 <= i < |s.entries| =>
         if i + 1 in taken then s.entries[i].(fate := Terminated(|s.sweeps|)) else s.entries[i]),
       sweeps := s.sweeps + [Sweep(grants, s.clock, taken, HandlesOf(s, taken))])
  }

  ghost function Sweeping(s: State, grants: set<Text>): State {
    Swept(s, grants, Under(s.reg, grants))
  }

  ghost function Take(s: State, step: Step): State
    requires CanStep(s, step)
  {
    var s' :=
      match step
      case Starts(grant, pair) => s.(joins := s.joins + [Join(grant, pair, Checking)])
      case Checks(j, failed) =>
        SetPhase(s, j, if !failed && s.joins[j].grant in s.revokedAt then Refused else Passed(s.clock, failed))
      case Fails(j) => SetPhase(s, j, Refused)
      case Registers(j) => Registering(s, j)
      case Ends(j) => Ending(s, j)
      case Revokes(grant) => if grant in s.revokedAt then s else s.(revokedAt := s.revokedAt[grant := s.clock])
      case Sweeps(grants) => Sweeping(s, grants)
      case Resets(k, h) =>
        s.(resets := s.resets + {h}, sweeps := s.sweeps[k := s.sweeps[k].(todo := s.sweeps[k].todo - {h})]);
    s'.(clock := s.clock + 1)
  }

  ghost predicate Reaches(s: State, steps: seq<Step>, s': State)
    decreases |steps|
  {
    if steps == [] then s == s'
    else CanStep(s, steps[0]) && Reaches(Take(s, steps[0]), steps[1..], s')
  }

  // What every step keeps

  predicate RunningAt(entries: seq<Entry>, g: Text, id: nat) {
    0 < id <= |entries| && entries[id - 1].grant == g && entries[id - 1].fate.Running?
  }

  /** A stream is on the register, with its own pair, exactly if its entry is running. */
  predicate ExactAt(reg: Register, entries: seq<Entry>, g: Text, id: nat) {
    && (Holds(reg, g, id) <==> RunningAt(entries, g, id))
    && (Holds(reg, g, id) && RunningAt(entries, g, id) ==> reg[g][id] == entries[id - 1].pair)
  }

  /** The register is exactly the entries still running. */
  ghost predicate Exact(s: State) {
    Tidy(s.reg) && forall g, id: nat :: ExactAt(s.reg, s.entries, g, id)
  }

  /** A join that passed its check without an error, under a grant since revoked, did so before the commit. */
  ghost predicate JoinsChecked(s: State) {
    && (forall g | g in s.revokedAt :: s.revokedAt[g] < s.clock)
    && (forall j | 0 <= j < |s.joins| && s.joins[j].phase.Passed? ::
          && s.joins[j].phase.at < s.clock
          && (!s.joins[j].phase.failed && s.joins[j].grant in s.revokedAt ==>
                s.joins[j].phase.at < s.revokedAt[s.joins[j].grant]))
  }

  /** So did the joins that went on to be registered. */
  ghost predicate EntriesChecked(s: State) {
    forall i | 0 <= i < |s.entries| ::
      && s.entries[i].checkedAt < s.entries[i].at < s.clock
      && (!s.entries[i].failed && s.entries[i].grant in s.revokedAt ==>
            s.entries[i].checkedAt < s.revokedAt[s.entries[i].grant])
  }

  /** A registered join knows its own entry. */
  ghost predicate JoinsKnow(s: State) {
    forall j | 0 <= j < |s.joins| && s.joins[j].phase.Registered? ::
      && 0 < s.joins[j].phase.id <= |s.entries|
      && s.entries[s.joins[j].phase.id - 1].grant == s.joins[j].grant
  }

  /** What a sweep took is terminated by it, and by no other. */
  ghost predicate TookThem(entries: seq<Entry>, w: Sweep, k: nat) {
    forall id | id in w.taken :: 0 < id <= |entries| && entries[id - 1].fate == Terminated(k)
  }

  /** Both ends of what it took are reset or about to be. */
  ghost predicate ResetsThem(entries: seq<Entry>, w: Sweep, resets: set<Handle>) {
    forall id | id in w.taken && 0 < id <= |entries| ::
      entries[id - 1].pair.operator in w.todo + resets && entries[id - 1].pair.agent in w.todo + resets
  }

  /** Nothing registered before it still runs under its grants. */
  ghost predicate LeftNone(entries: seq<Entry>, w: Sweep) {
    forall i | 0 <= i < |entries| && entries[i].grant in w.grants && entries[i].at < w.at :: !entries[i].fate.Running?
  }

  ghost predicate SweepSound(s: State, k: nat)
    requires k < |s.sweeps|
  {
    var w := s.sweeps[k];
    w.at < s.clock && TookThem(s.entries, w, k) && ResetsThem(s.entries, w, s.resets) && LeftNone(s.entries, w)
  }

  ghost predicate SweepsSound(s: State) {
    && (forall k | 0 <= k < |s.sweeps| :: SweepSound(s, k))
    && (forall i | 0 <= i < |s.entries| && s.entries[i].fate.Terminated? ::
          s.entries[i].fate.sweep < |s.sweeps| && i + 1 in s.sweeps[s.entries[i].fate.sweep].taken)
  }

  ghost predicate Inv(s: State) {
    Exact(s) && JoinsChecked(s) && EntriesChecked(s) && JoinsKnow(s) && SweepsSound(s)
  }

  lemma UnderIs(s: State, grants: set<Text>, id: nat)
    requires Exact(s)
    ensures id in Under(s.reg, grants) <==>
            0 < id <= |s.entries| && s.entries[id - 1].grant in grants && s.entries[id - 1].fate.Running?
  {
    if id in Under(s.reg, grants) {
      var g :| g in s.reg && g in grants && id in s.reg[g];
      assert ExactAt(s.reg, s.entries, g, id);
    }
    if 0 < id <= |s.entries| && s.entries[id - 1].fate.Running? {
      assert ExactAt(s.reg, s.entries, s.entries[id - 1].grant, id);
    }
  }

  lemma RegistersExact(s: State, j: nat)
    requires Exact(s) && j < |s.joins| && s.joins[j].phase.Passed?
    ensures Exact(Registering(s, j))
  {
    var id := |s.entries| + 1;
    var g, p := s.joins[j].grant, s.joins[j].pair;
    var s' := Registering(s, j);
    forall h ensures !Holds(s.reg, h, id) {
      assert ExactAt(s.reg, s.entries, h, id);
    }
    AddTidy(s.reg, g, id, p);
    forall h, i: nat ensures ExactAt(s'.reg, s'.entries, h, i) {
      AddHolds(s.reg, g, id, p);
      assert ExactAt(s.reg, s.entries, h, i);
    }
  }

  lemma EndsExact(s: State, j: nat)
    requires Exact(s) && JoinsKnow(s) && j < |s.joins| && s.joins[j].phase.Registered?
    ensures Exact(Ending(s, j))
  {
    var g, id := s.joins[j].grant, s.joins[j].phase.id;
    var s' := Ending(s, j);
    RemoveTidy(s.reg, g, id);
    forall h, i: nat ensures ExactAt(s'.reg, s'.entries, h, i) {
      RemoveHolds(s.reg, g, id);
      assert ExactAt(s.reg, s.entries, h, i);
    }
  }

  lemma SweptAt(s: State, grants: set<Text>, taken: set<nat>, g: Text, id: nat)
    requires ExactAt(s.reg, s.entries, g, id)
    requires id in taken <==>
             0 < id <= |s.entries| && s.entries[id - 1].grant in grants && s.entries[id - 1].fate.Running?
    ensures var s' := Swept(s, grants, taken); ExactAt(s'.reg, s'.entries, g, id)
  {
    DropHoldsAt(s.reg, grants, g, id);
  }

  lemma SweepsExact(s: State, grants: set<Text>)
    requires Exact(s)
    ensures Exact(Sweeping(s, grants))
  {
    DropTidy(s.reg, grants);
    var s' := Sweeping(s, grants);
    forall g, id: nat ensures ExactAt(s'.reg, s'.entries, g, id) {
      assert ExactAt(s.reg, s.entries, g, id);
      UnderIs(s, grants, id);
      SweptAt(s, grants, Under(s.reg, grants), g, id);
    }
  }

  lemma StepExact(s: State, step: Step)
    requires Exact(s) && JoinsKnow(s) && CanStep(s, step)
    ensures Exact(Take(s, step))
  {
    match step {
      case Registers(j) => RegistersExact(s, j);
      case Ends(j) => EndsExact(s, j);
      case Sweeps(grants) => SweepsExact(s, grants);
      case _ =>
    }
  }

  lemma StepJoinsChecked(s: State, step: Step)
    requires JoinsChecked(s) && CanStep(s, step)
    ensures JoinsChecked(Take(s, step))
  {
  }

  lemma StepEntriesChecked(s: State, step: Step)
    requires JoinsChecked(s) && EntriesChecked(s) && CanStep(s, step)
    ensures EntriesChecked(Take(s, step))
  {
  }

  lemma StepJoins(s: State, step: Step)
    requires JoinsKnow(s) && CanStep(s, step)
    ensures JoinsKnow(Take(s, step))
  {
  }

  /** An older sweep stays sound while entries only stop running, new ones are only added later, and what is to
      be reset only gets reset. */
  lemma OlderSweep(s: State, s': State, k: nat)
    requires k < |s.sweeps| && SweepSound(s, k) && k < |s'.sweeps| && s.clock <= s'.clock
    requires |s.entries| <= |s'.entries| && s.resets <= s'.resets
    requires s'.sweeps[k].(todo := {}) == s.sweeps[k].(todo := {}) && s.sweeps[k].todo <= s'.sweeps[k].todo + s'.resets
    requires forall i | 0 <= i < |s.entries| ::
               && s'.entries[i].(fate := Running) == s.entries[i].(fate := Running)
               && (!s.entries[i].fate.Running? ==> s'.entries[i].fate == s.entries[i].fate)
    requires forall i | |s.entries| <= i < |s'.entries| :: s'.entries[i].at >= s.clock
    ensures SweepSound(s', k)
  {
    var w := s.sweeps[k];
    forall i | 0 <= i < |s'.entries| && s'.entries[i].grant in w.grants && s'.entries[i].at < w.at
      ensures !s'.entries[i].fate.Running?
    {
      assert i < |s.entries|;
      assert s'.entries[i].grant == s.entries[i].grant && s'.entries[i].at == s.entries[i].at;
    }
    forall id | id in w.taken ensures s'.entries[id - 1].pair == s.entries[id - 1].pair {
      assert s'.entries[id - 1].(fate := Running).pair == s.entries[id - 1].(fate := Running).pair;
    }
  }

  /** These are the entries running under these grants. */
  ghost predicate RunningUnder(s: State, grants: set<Text>, taken: set<nat>) {
    forall id: nat :: id in taken <==>
      0 < id <= |s.entries| && s.entries[id - 1].grant in grants && s.entries[id - 1].fate.Running?
  }

  lemma NewTook(s: State, grants: set<Text>, taken: set<nat>)
    requires RunningUnder(s, grants, taken)
    ensures var s' := Swept(s, grants, taken); TookThem(s'.entries, s'.sweeps[|s.sweeps|], |s.sweeps|)
  {
  }

  lemma NewResets(s: State, grants: set<Text>, taken: set<nat>)
    ensures var s' := Swept(s, grants, taken); ResetsThem(s'.entries, s'.sweeps[|s.sweeps|], s'.resets)
  {
    var s' := Swept(s, grants, taken);
    forall id | id in taken && 0 < id <= |s.entries|
      ensures s'.entries[id - 1].pair.operator in HandlesOf(s, taken) && s'.entries[id - 1].pair.agent in HandlesOf(s, taken)
    {
      assert s'.entries[id - 1].pair == s.entries[id - 1].pair;
    }
  }

  lemma NewLeftNone(s: State, grants: set<Text>, taken: set<nat>)
    requires RunningUnder(s, grants, taken)
    ensures var s' := Swept(s, grants, taken); LeftNone(s'.entries, s'.sweeps[|s.sweeps|])
  {
    var s' := Swept(s, grants, taken);
    forall i | 0 <= i < |s'.entries| && s'.entries[i].grant in grants ensures !s'.entries[i].fate.Running? {
      var id: nat := i + 1;
      assert id in taken <==> s.entries[id - 1].grant in grants && s.entries[id - 1].fate.Running?;
    }
  }

  lemma NewSweep(s: State, grants: set<Text>, taken: set<nat>)
    requires RunningUnder(s, grants, taken)
    ensures SweepSound(Swept(s, grants, taken).(clock := s.clock + 1), |s.sweeps|)
  {
    NewTook(s, grants, taken);
    NewResets(s, grants, taken);
    NewLeftNone(s, grants, taken);
  }

  lemma SweepsSweeps(s: State, grants: set<Text>, taken: set<nat>)
    requires SweepsSound(s) && RunningUnder(s, grants, taken)
    ensures SweepsSound(Swept(s, grants, taken).(clock := s.clock + 1))
  {
    var s' := Swept(s, grants, taken).(clock := s.clock + 1);
    NewSweep(s, grants, taken);
    forall i | 0 <= i < |s.entries| && i + 1 in taken ensures s.entries[i].fate.Running? {
      assert i + 1 in taken;
    }
    forall k | 0 <= k < |s'.sweeps| ensures SweepSound(s', k) {
      if k < |s.sweeps| {
        OlderSweep(s, s', k);
      }
    }
  }

  lemma StepSweeps(s: State, step: Step)
    requires Inv(s) && CanStep(s, step)
    ensures SweepsSound(Take(s, step))
  {
    if step.Sweeps? {
      forall id: nat
        ensures id in Under(s.reg, step.grants) <==>
                0 < id <= |s.entries| && s.entries[id - 1].grant in step.grants && s.entries[id - 1].fate.Running?
      {
        UnderIs(s, step.grants, id);
      }
      SweepsSweeps(s, step.grants, Under(s.reg, step.grants));
    } else {
      var s' := Take(s, step);
      forall k | 0 <= k < |s'.sweeps| ensures SweepSound(s', k) {
        OlderSweep(s, s', k);
      }
    }
  }

  lemma StepInv(s: State, step: Step)
    requires Inv(s) && CanStep(s, step)
    ensures Inv(Take(s, step))
  {
    StepExact(s, step);
    StepJoinsChecked(s, step);
    StepEntriesChecked(s, step);
    StepJoins(s, step);
    StepSweeps(s, step);
  }

  lemma {:induction false} ReachesInv(s: State, steps: seq<Step>, s': State)
    requires Inv(s) && Reaches(s, steps, s')
    ensures Inv(s')
    decreases |steps|
  {
    if steps != [] {
      StepInv(s, steps[0]);
      ReachesInv(Take(s, steps[0]), steps[1..], s');
    }
  }

  /** In every reachable state the register holds exactly the streams added and neither released nor
      terminated, under their own grants, with no empty inner map. */
  lemma RegisterIsExact(steps: seq<Step>, s: State, g: Text, id: nat)
    requires Reaches(BEGIN, steps, s)
    ensures Holds(s.reg, g, id) <==>
            0 < id <= |s.entries| && s.entries[id - 1].grant == g && s.entries[id - 1].fate == Running
    ensures g in s.reg ==> s.reg[g] != map[]
  {
    ReachesInv(BEGIN, steps, s);
    assert ExactAt(s.reg, s.entries, g, id);
  }

  /** Each stream is counted by at most one termination. */
  lemma CountedOnce(steps: seq<Step>, s: State, k: nat, l: nat, id: nat)
    requires Reaches(BEGIN, steps, s) && k < |s.sweeps| && l < |s.sweeps|
    requires id in s.sweeps[k].taken && id in s.sweeps[l].taken
    ensures k == l
  {
    ReachesInv(BEGIN, steps, s);
    assert SweepSound(s, k) && SweepSound(s, l);
  }

  /** What a sweep took stays taken, and entries keep their pairs. */
  ghost predicate Follows(s: State, s': State) {
    && |s.sweeps| <= |s'.sweeps| && |s.entries| <= |s'.entries|
    && (forall k | 0 <= k < |s.sweeps| :: s'.sweeps[k].taken == s.sweeps[k].taken)
    && (forall i | 0 <= i < |s.entries| :: s'.entries[i].pair == s.entries[i].pair)
  }

  lemma StepFollows(s: State, step: Step)
    requires CanStep(s, step)
    ensures Follows(s, Take(s, step))
  {
  }

  lemma {:induction false} ReachesFollows(s: State, steps: seq<Step>, s': State)
    requires Reaches(s, steps, s')
    ensures Follows(s, s')
    decreases |steps|
  {
    if steps != [] {
      StepFollows(s, steps[0]);
      ReachesFollows(Take(s, steps[0]), steps[1..], s');
    }
  }

  /** Every pair registered under one of the grants when Terminate runs is terminated by it and by nothing else,
      and once that Terminate has done its resets, both of its ends have been reset. */
  lemma TerminationReachesAll(before: seq<Step>, s0: State, grants: set<Text>, g: Text, id: nat, after: seq<Step>, s: State)
    requires Reaches(BEGIN, before, s0) && g in grants && Holds(s0.reg, g, id)
    requires Reaches(Take(s0, Sweeps(grants)), after, s)
    ensures 0 < id <= |s.entries| && |s0.sweeps| < |s.sweeps|
    ensures s.entries[id - 1].pair == s0.reg[g][id] && s.entries[id - 1].fate == Terminated(|s0.sweeps|)
    ensures id in s.sweeps[|s0.sweeps|].taken
    ensures s.sweeps[|s0.sweeps|].todo == {} ==> s0.reg[g][id].operator in s.resets && s0.reg[g][id].agent in s.resets
  {
    var k := |s0.sweeps|;
    var s1 := Take(s0, Sweeps(grants));
    ReachesInv(BEGIN, before, s0);
    StepInv(s0, Sweeps(grants));
    TakenNow(s0, grants, g, id);
    ReachesInv(s1, after, s);
    ReachesFollows(s1, after, s);
    assert SweepSound(s, k);
  }

  lemma TakenNow(s: State, grants: set<Text>, g: Text, id: nat)
    requires Exact(s) && g in grants && Holds(s.reg, g, id)
    ensures var s' := Take(s, Sweeps(grants));
            && 0 < id <= |s'.entries| && s'.entries[id - 1].pair == s.reg[g][id]
            && |s'.sweeps| == |s.sweeps| + 1 && id in s'.sweeps[|s.sweeps|].taken
  {
    assert ExactAt(s.reg, s.entries, g, id);
    UnderIs(s, grants, id);
  }

  /** And nothing registered under its grants before it runs on. */
  lemma NothingRunsOn(steps: seq<Step>, s: State, k: nat, i: nat)
    requires Reaches(BEGIN, steps, s) && k < |s.sweeps|
    requires i < |s.entries| && s.entries[i].grant in s.sweeps[k].grants && s.entries[i].at < s.sweeps[k].at
    ensures !s.entries[i].fate.Running?
  {
    ReachesInv(BEGIN, steps, s);
    assert SweepSound(s, k);
  }

  /** Whatever runs under a grant after its revocation committed and a termination swept it was registered after
      that sweep, and had its grant check finish before the commit or fail with an error. */
  lemma LateJoinersWereChecked(steps: seq<Step>, s: State, k: nat, g: Text, id: nat)
    requires Reaches(BEGIN, steps, s) && g in s.revokedAt && k < |s.sweeps| && g in s.sweeps[k].grants
    requires Holds(s.reg, g, id)
    ensures 0 < id <= |s.entries| && s.entries[id - 1].grant == g
    ensures s.entries[id - 1].at >= s.sweeps[k].at
    ensures s.entries[id - 1].failed || s.entries[id - 1].checkedAt < s.revokedAt[g]
  {
    ReachesInv(BEGIN, steps, s);
    assert SweepSound(s, k) && ExactAt(s.reg, s.entries, g, id);
  }

  /** A join passes its check, then its grant is revoked and swept. */
  lemma SweptTooEarly(g: Text) returns (s: State)
    requires g != []
    ensures Reaches(BEGIN, [Starts(g, Pair(1, 2)), Checks(0, false), Revokes(g), Sweeps({g})], s)
    ensures s == State(4, map[g := 2], [Join(g, Pair(1, 2), Passed(1, false))], map[], [], [Sweep({g}, 3, {}, {})], {})
  {
    var s1 := State(1, map[], [Join(g, Pair(1, 2), Checking)], map[], [], [], {});
    var s2 := s1.(clock := 2, joins := [Join(g, Pair(1, 2), Passed(1, false))]);
    var s3 := s2.(clock := 3, revokedAt := map[g := 2]);
    s := s3.(clock := 4, sweeps := [Sweep({g}, 3, {}, {})]);
    assert Take(BEGIN, Starts(g, Pair(1, 2))) == s1;
    assert Take(s1, Checks(0, false)) == s2;
    assert Take(s2, Revokes(g)) == s3;
    assert Under(s3.reg, {g}) == {} && HandlesOf(s3, {}) == {} && Drop(s3.reg, {g}) == map[];
    assert Take(s3, Sweeps({g})) == s;
    ReachesOne(s3, Sweeps({g}), [], s);
    ReachesOne(s2, Revokes(g), [Sweeps({g})], s);
    ReachesOne(s1, Checks(0, false), [Revokes(g), Sweeps({g})], s);
    ReachesOne(BEGIN, Starts(g, Pair(1, 2)), [Checks(0, false), Revokes(g), Sweeps({g})], s);
  }

  /** The gap is real: a join that passed its check before the commit can register after the sweep, and run. */
  lemma LateJoinerExists(g: Text) returns (steps: seq<Step>, s: State)
    requires g != []
    ensures Reaches(BEGIN, steps, s) && g in s.revokedAt && |s.sweeps| == 1 && g in s.sweeps[0].grants
    ensures s.sweeps[0].todo == {} && Holds(s.reg, g, 1)
  {
    var before := [Starts(g, Pair(1, 2)), Checks(0, false), Revokes(g), Sweeps({g})];
    var swept := SweptTooEarly(g);
    s := Take(swept, Registers(0));
    steps := before + [Registers(0)];
    ReachesThen(BEGIN, before, swept, Registers(0));
    AddHolds(swept.reg, g, 1, Pair(1, 2));
  }

  lemma {:induction false} ReachesThen(s: State, steps: seq<Step>, s': State, step: Step)
    requires Reaches(s, steps, s') && CanStep(s', step)
    ensures Reaches(s, steps + [step], Take(s', step))
    decreases |steps|
  {
    if steps == [] {
      assert [step][1..] == [];
    } else {
      assert (steps + [step])[1..] == steps[1..] + [step];
      ReachesThen(Take(s, steps[0]), steps[1..], s', step);
    }
  }

  lemma ReachesOne(s: State, step: Step, rest: seq<Step>, s': State)
    requires CanStep(s, step) && Reaches(Take(s, step), rest, s')
    ensures Reaches(s, [step] + rest, s')
  {
    assert ([step] + rest)[1..] == rest;
  }
}
