/** Two copiers that share one byte budget, under every interleaving of their steps. The load and the
    compare-and-swap of a reservation are separate steps. */
module Bridge {
  import opened Bytes

  const BUFFER_SIZE: nat := 65536

  /** What a read reports beside its bytes. */
  datatype ReadEnd = More | Eof | ReadError

  datatype Ending = Clean | BudgetExhausted | WriteError | ShortWrite | ReadFailed

  /** Where a copier is. `Wanting` is about to load the counter, `Loaded` has, `Writing` holds a reservation
      of `allowed` bytes for its chunk; `Ended` has its result to report, then `Counted` its error. */
  datatype Phase =
    | Reading
    | Wanting(chunk: seq<byte>, er: ReadEnd)
    | Loaded(chunk: seq<byte>, er: ReadEnd, used: uint64)
    | Writing(chunk: seq<byte>, er: ReadEnd, allowed: nat)
    | Ended(how: Ending)
    | Counted(how: Ending)
    | Reported(how: Ending)

  /** The rest are histories: what was read from the source and accepted by the destination, how much was
      reserved and how much of it a failed write lost, and how often the swap succeeded and failed. */
  datatype Copier = Copier(
    phase: Phase,
    consumed: seq<byte>,
    delivered: seq<byte>,
    reserved: nat,
    lost: nat,
    wins: nat,
    retries: nat)

  datatype Way = AToB | BToA

  function Opposite(w: Way): Way {
    if w.AToB? then BToA else AToB
  }

  /** `counts` are the byte counts reported, `first` the first error, `aborts` who tore both sides down. */
  datatype State = State(
    cap: uint64,
    spent: uint64,
    a: Copier,
    b: Copier,
    countA: Option<nat>,
    countB: Option<nat>,
    first: Option<Ending>,
    aborted: set<Way>)
  {
    function Of(w: Way): Copier { if w.AToB? then a else b }

    function With(w: Way, c: Copier): State {
      if w.AToB? then this.(a := c) else this.(b := c)
    }
  }

  const FRESH := Copier(Reading, [], [], 0, 0, 0, 0)

  function Begin(cap: uint64): State {
    State(cap, 0, FRESH, FRESH, None, None, None, {})
  }

  /** One step of one copier, with what its connections do in it. */
  datatype Step =
    | Reads(w: Way, chunk: seq<byte>, er: ReadEnd)
    | Loads(w: Way)
    | Swaps(w: Way)
    | Writes(w: Way, n: nat, ok: bool)
    | Counts(w: Way)
    | Records(w: Way)

  predicate CanStep(s: State, step: Step) {
    var p := s.Of(step.w).phase;
    match step
    case Reads(_, chunk, _) => p.Reading? && |chunk| <= BUFFER_SIZE
    case Loads(_) => p.Wanting?
    case Swaps(_) => p.Loaded?
    case Writes(_, n, _) => p.Writing? && n <= p.allowed
    case Counts(_) => p.Ended?
    case Records(_) => p.Counted?
  }

  /** uint64 arithmetic. */
  function Wrap64(x: int): uint64 {
    x % 0x1_0000_0000_0000_0000
  }

  function Grantable(want: nat, used: uint64, cap: uint64): nat {
    var left := Wrap64(cap - used);
    if want > left then left else want
  }

  function AfterRead(c: Copier, chunk: seq<byte>, er: ReadEnd): Copier {
    if chunk != [] then c.(phase := Wanting(chunk, er), consumed := c.consumed + chunk)
    else c.(phase := Resume(er))
  }

  /** A copier goes on reading, or ends, as the last read said. */
  function Resume(er: ReadEnd): Phase {
    match er
    case More => Reading
    case Eof => Ended(Clean)
    case ReadError => Ended(ReadFailed)
  }

  function AfterLoad(c: Copier, spent: uint64, cap: uint64): Copier
    requires c.phase.Wanting?
  {
    var p := c.phase;
    if cap == 0 then c.(phase := Writing(p.chunk, p.er, |p.chunk|), reserved := c.reserved + |p.chunk|)
    else if spent >= cap then c.(phase := Ended(BudgetExhausted))
    else c.(phase := Loaded(p.chunk, p.er, spent))
  }

  /** The swap succeeds exactly when the counter is what was loaded. */
  function AfterSwap(c: Copier, spent: uint64, cap: uint64): (Copier, uint64)
    requires c.phase.Loaded?
  {
    var p := c.phase;
    if spent == p.used then
      var grant := Grantable(|p.chunk|, p.used, cap);
      (c.(phase := Writing(p.chunk, p.er, grant), reserved := c.reserved + grant, wins := c.wins + 1),
       Wrap64(p.used + grant))
    else (c.(phase := Wanting(p.chunk, p.er), retries := c.retries + 1), spent)
  }

  function AfterWrite(c: Copier, n: nat, ok: bool): Copier
    requires c.phase.Writing? && n <= c.phase.allowed
  {
    var p := c.phase;
    var sent := p.chunk[..Min(n, |p.chunk|)];
    c.(delivered := c.delivered + sent, lost := c.lost + (p.allowed - n),
       phase := if p.allowed < |p.chunk| then Ended(BudgetExhausted)
                else if !ok then Ended(WriteError)
                else if n != |p.chunk| then Ended(ShortWrite)
                else Resume(p.er))
  }

  function Take(s: State, step: Step): State
    requires CanStep(s, step)
  {
    var w := step.w;
    var c := s.Of(w);
    match step
    case Reads(_, chunk, er) => s.With(w, AfterRead(c, chunk, er))
    case Loads(_) => s.With(w, AfterLoad(c, s.spent, s.cap))
    case Swaps(_) =>
      var (c', spent) := AfterSwap(c, s.spent, s.cap);
      s.With(w, c').(spent := spent)
    case Writes(_, n, ok) => s.With(w, AfterWrite(c, n, ok))
    case Counts(_) =>
      var s' := s.With(w, c.(phase := Counted(c.phase.how)));
      if w.AToB? then s'.(countA := Some(|c.delivered|)) else s'.(countB := Some(|c.delivered|))
    case Records(_) =>
      var s' := s.With(w, c.(phase := Reported(c.phase.how)));
      if c.phase.how.Clean? then s'
      else s'.(first := if s.first.None? then Some(c.phase.how) else s.first, aborted := s.aborted + {w})
  }

  function Run(s: State, steps: seq<Step>): Option<State>
    decreases |steps|
  {
    if steps == [] then Some(s)
    else if !CanStep(s, steps[0]) then None
    else Run(Take(s, steps[0]), steps[1..])
  }

  // What every step keeps

  predicate Finished(p: Phase) {
    p.Ended? || p.Counted? || p.Reported?
  }

  function HowOf(p: Phase): Option<Ending> {
    if Finished(p) then Some(p.how) else None
  }

  /** One copier's books: what it read is what it delivered and the chunk it holds; what it reserved is what it
      delivered, lost, and is about to write. */
  ghost predicate Books(c: Copier) {
    match c.phase
    case Reading => c.delivered == c.consumed && c.reserved == |c.delivered| && c.lost == 0
    case Wanting(chunk, _) =>
      chunk != [] && c.consumed == c.delivered + chunk && c.reserved == |c.delivered| && c.lost == 0
    case Loaded(chunk, _, _) =>
      chunk != [] && c.consumed == c.delivered + chunk && c.reserved == |c.delivered| && c.lost == 0
    case Writing(chunk, _, allowed) =>
      && chunk != [] && c.consumed == c.delivered + chunk && allowed <= |chunk| && c.lost == 0
      && c.reserved == |c.delivered| + allowed
    case _ =>
      && c.delivered <= c.consumed && c.reserved == |c.delivered| + c.lost
      && (c.phase.how.Clean? ==> c.delivered == c.consumed && c.lost == 0)
  }

  /** A copier cut short found the whole cap reserved, and a load is never ahead of the counter. */
  ghost predicate Cut(s: State, c: Copier) {
    && (HowOf(c.phase) == Some(BudgetExhausted) ==> s.cap > 0 && s.spent == s.cap)
    && (c.phase.Writing? && c.phase.allowed < |c.phase.chunk| ==> s.cap > 0 && s.spent == s.cap)
    && (c.phase.Loaded? ==> s.cap > 0 && c.phase.used <= s.spent && c.phase.used < s.cap)
  }

  ghost predicate Counter(s: State) {
    && s.spent <= s.cap
    && (s.cap > 0 ==> s.spent == s.a.reserved + s.b.reserved)
  }

  /** Every retry is paid for by a reservation of the other copier. */
  ghost predicate Paid(c: Copier, other: Copier, spent: uint64) {
    c.retries + (if c.phase.Loaded? && c.phase.used < spent then 1 else 0) <= other.wins
  }

  /** The counts are reported once known, and are the bytes delivered. */
  ghost predicate CountsTrue(s: State) {
    && (s.countA.Some? <==> s.a.phase.Counted? || s.a.phase.Reported?)
    && (s.countB.Some? <==> s.b.phase.Counted? || s.b.phase.Reported?)
    && (s.countA.Some? ==> s.countA.value == |s.a.delivered|)
    && (s.countB.Some? ==> s.countB.value == |s.b.delivered|)
  }

  /** The error reported is how one of the directions that tore both sides down ended. */
  ghost predicate ErrorTrue(s: State) {
    && (forall w: Way :: w in s.aborted <==> s.Of(w).phase.Reported? && !s.Of(w).phase.how.Clean?)
    && (s.first.None? <==> s.aborted == {})
    && (s.first.Some? ==> exists w | w in s.aborted :: s.first == HowOf(s.Of(w).phase))
  }

  ghost predicate Results(s: State) {
    CountsTrue(s) && ErrorTrue(s)
  }

  /** What the copiers have, reserve and find. */
  ghost predicate Ledger(s: State) {
    Books(s.a) && Books(s.b) && Counter(s) && Cut(s, s.a) && Cut(s, s.b)
  }

  ghost predicate Inv(s: State) {
    && Ledger(s)
    && Paid(s.a, s.b, s.spent) && Paid(s.b, s.a, s.spent) && Results(s)
  }

  lemma GrantBounds(want: nat, used: uint64, cap: uint64)
    requires used < cap && want > 0
    ensures 0 < Grantable(want, used, cap) <= want && used + Grantable(want, used, cap) <= cap
    ensures Wrap64(used + Grantable(want, used, cap)) == used + Grantable(want, used, cap)
    ensures Grantable(want, used, cap) < want ==> used + Grantable(want, used, cap) == cap
  {
  }

  lemma ReadKeeps(c: Copier, chunk: seq<byte>, er: ReadEnd)
    requires Books(c) && c.phase.Reading?
    ensures Books(AfterRead(c, chunk, er))
  {
  }

  lemma WriteKeeps(c: Copier, n: nat, ok: bool)
    requires Books(c) && c.phase.Writing? && n <= c.phase.allowed
    ensures Books(AfterWrite(c, n, ok))
  {
    var chunk := c.phase.chunk;
    assert c.consumed == c.delivered + chunk[..n] + chunk[n..];
    assert n == |chunk| ==> chunk[..n] == chunk;
  }

  lemma LoadKeeps(c: Copier, spent: uint64, cap: uint64)
    requires Books(c) && c.phase.Wanting?
    ensures Books(AfterLoad(c, spent, cap))
    ensures cap > 0 ==> AfterLoad(c, spent, cap).reserved == c.reserved
  {
    assert c.delivered <= c.consumed;
  }

  lemma SwapKeeps(c: Copier, spent: uint64, cap: uint64)
    requires Books(c) && c.phase.Loaded? && c.phase.used < cap && c.phase.used <= spent <= cap
    ensures var (c', spent') := AfterSwap(c, spent, cap);
            && Books(c') && spent <= spent' <= cap && spent' - spent == c'.reserved - c.reserved
            && (c'.phase.Writing? && c'.phase.allowed < |c'.phase.chunk| ==> spent' == cap)
  {
    GrantBounds(|c.phase.chunk|, c.phase.used, cap);
  }

  lemma MoverBooks(s: State, step: Step)
    requires Ledger(s) && CanStep(s, step)
    ensures Books(Take(s, step).Of(step.w))
  {
    var c := s.Of(step.w);
    match step {
      case Reads(_, chunk, er) => ReadKeeps(c, chunk, er);
      case Loads(_) => LoadKeeps(c, s.spent, s.cap);
      case Swaps(_) => SwapKeeps(c, s.spent, s.cap);
      case Writes(_, n, ok) => WriteKeeps(c, n, ok);
      case _ =>
    }
  }

  lemma MoverCounter(s: State, step: Step)
    requires Books(s.Of(step.w)) && Counter(s) && Cut(s, s.Of(step.w)) && CanStep(s, step)
    ensures Counter(Take(s, step)) && s.spent <= Take(s, step).spent
  {
    var c := s.Of(step.w);
    if step.Swaps? {
      SwapKeeps(c, s.spent, s.cap);
    } else if step.Loads? {
      LoadKeeps(c, s.spent, s.cap);
    }
  }

  lemma MoverCut(s: State, step: Step)
    requires Books(s.Of(step.w)) && Counter(s) && Cut(s, s.Of(step.w)) && CanStep(s, step)
    ensures Cut(Take(s, step), Take(s, step).Of(step.w))
  {
    if step.Swaps? {
      SwapKeeps(s.Of(step.w), s.spent, s.cap);
    }
  }

  /** The other copier's books are untouched, and the counter only grows. */
  lemma WaiterKeeps(s: State, step: Step)
    requires Ledger(s) && CanStep(s, step) && Counter(Take(s, step)) && s.spent <= Take(s, step).spent
    ensures var s', o := Take(s, step), Opposite(step.w);
            s'.Of(o) == s.Of(o) && Cut(s', s'.Of(o))
  {
  }

  lemma PaidKeeps(s: State, step: Step)
    requires Books(s.Of(step.w)) && s.spent <= s.cap && Cut(s, s.a) && Cut(s, s.b) && CanStep(s, step)
    requires Paid(s.a, s.b, s.spent) && Paid(s.b, s.a, s.spent)
    ensures var s' := Take(s, step); Paid(s'.a, s'.b, s'.spent) && Paid(s'.b, s'.a, s'.spent)
  {
    if step.Swaps? {
      SwapPays(s.Of(step.w), s.Of(Opposite(step.w)), s.spent, s.cap);
    }
  }

  lemma SwapPays(c: Copier, other: Copier, spent: uint64, cap: uint64)
    requires Books(c) && c.phase.Loaded? && c.phase.used < cap && c.phase.used <= spent <= cap
    requires Paid(c, other, spent) && Paid(other, c, spent)
    ensures var (c', spent') := AfterSwap(c, spent, cap); Paid(c', other, spent') && Paid(other, c', spent')
  {
    GrantBounds(|c.phase.chunk|, c.phase.used, cap);
  }

  lemma CountsKeep(s: State, step: Step)
    requires CountsTrue(s) && CanStep(s, step)
    ensures CountsTrue(Take(s, step))
  {
  }

  lemma ErrorKeeps(s: State, step: Step)
    requires ErrorTrue(s) && CanStep(s, step)
    ensures ErrorTrue(Take(s, step))
  {
    var s' := Take(s, step);
    if s'.first.Some? && s.first.None? {
      assert step.w in s'.aborted;
    }
  }

  lemma LedgerKeeps(s: State, step: Step)
    requires Ledger(s) && CanStep(s, step)
    ensures Ledger(Take(s, step)) && s.spent <= Take(s, step).spent
  {
    MoverBooks(s, step);
    MoverCounter(s, step);
    MoverCut(s, step);
    WaiterKeeps(s, step);
    BothKeep(s, Take(s, step), step.w);
  }

  lemma CapStays(s: State, step: Step)
    requires CanStep(s, step)
    ensures Take(s, step).cap == s.cap
  {
  }

  lemma StepKeeps(s: State, step: Step)
    requires Inv(s) && CanStep(s, step)
    ensures Inv(Take(s, step)) && Take(s, step).cap == s.cap
  {
    LedgerKeeps(s, step);
    PaidKeeps(s, step);
    CountsKeep(s, step);
    ErrorKeeps(s, step);
    CapStays(s, step);
  }

  lemma BothKeep(s: State, s': State, w: Way)
    requires Books(s'.Of(w)) && Cut(s', s'.Of(w)) && Cut(s', s'.Of(Opposite(w)))
    requires Books(s.Of(Opposite(w))) && s'.Of(Opposite(w)) == s.Of(Opposite(w))
    ensures Books(s'.a) && Books(s'.b) && Cut(s', s'.a) && Cut(s', s'.b)
  {
  }

  lemma {:induction false} RunKeeps(s: State, steps: seq<Step>)
    requires Inv(s) && Run(s, steps).Some?
    ensures Inv(Run(s, steps).value) && Run(s, steps).value.cap == s.cap
    decreases |steps|
  {
    if steps != [] {
      StepKeeps(s, steps[0]);
      RunKeeps(Take(s, steps[0]), steps[1..]);
    }
  }

  lemma Reachable(cap: uint64, steps: seq<Step>)
    requires Run(Begin(cap), steps).Some?
    ensures Inv(Run(Begin(cap), steps).value) && Run(Begin(cap), steps).value.cap == cap
  {
    RunKeeps(Begin(cap), steps);
  }

  /** Under every interleaving of the two copiers with a non-zero cap: what they reserved is what the counter
      says and never exceeds the cap, what they delivered never exceeds what they reserved, and each
      destination holds a prefix of what was read from its source. */
  lemma BudgetNeverExceeded(cap: uint64, steps: seq<Step>)
    requires cap > 0 && Run(Begin(cap), steps).Some?
    ensures var s := Run(Begin(cap), steps).value;
            && s.spent == s.a.reserved + s.b.reserved <= cap
            && |s.a.delivered| <= s.a.reserved && |s.b.delivered| <= s.b.reserved
            && s.a.delivered <= s.a.consumed && s.b.delivered <= s.b.consumed
  {
    Reachable(cap, steps);
    var s := Run(Begin(cap), steps).value;
    assert Books(s.a) && Books(s.b);
  }

  /** Exhaustion is only ever reported with the whole cap reserved. Once both copiers are finished, exactly
      the cap was delivered but for the bytes a failed last write lost. */
  lemma ExhaustionIsExact(cap: uint64, steps: seq<Step>, w: Way)
    requires Run(Begin(cap), steps).Some?
    requires HowOf(Run(Begin(cap), steps).value.Of(w).phase) == Some(BudgetExhausted)
    ensures var s := Run(Begin(cap), steps).value;
            && cap > 0 && s.a.reserved + s.b.reserved == cap
            && (Finished(s.a.phase) && Finished(s.b.phase) ==>
                  |s.a.delivered| + |s.b.delivered| + s.a.lost + s.b.lost == cap)
  {
    Reachable(cap, steps);
    var s := Run(Begin(cap), steps).value;
    assert Cut(s, s.Of(w));
  }

  /** Without a cap nothing is ever cut for it. */
  lemma UnlimitedIsNeverCut(steps: seq<Step>, w: Way)
    requires Run(Begin(0), steps).Some?
    ensures HowOf(Run(Begin(0), steps).value.Of(w).phase) != Some(BudgetExhausted)
  {
    Reachable(0, steps);
    var s := Run(Begin(0), steps).value;
    assert Cut(s, s.Of(w));
  }

  /** A compare-and-swap fails only because the counter has strictly grown since it was loaded, so a copier
      retries at most once for each reservation the other makes. */
  lemma RetriesArePaidFor(cap: uint64, steps: seq<Step>, w: Way)
    requires Run(Begin(cap), steps).Some?
    ensures var s := Run(Begin(cap), steps).value;
            && s.Of(w).retries <= s.Of(Opposite(w)).wins
            && (CanStep(s, Swaps(w)) && Take(s, Swaps(w)).Of(w).phase.Wanting? ==> s.spent > s.Of(w).phase.used)
  {
    Reachable(cap, steps);
    var s := Run(Begin(cap), steps).value;
    assert Cut(s, s.Of(w)) && Paid(s.a, s.b, s.spent) && Paid(s.b, s.a, s.spent);
  }

  /** A direction that ends cleanly delivered everything it read. */
  lemma CleanEndDeliversAll(cap: uint64, steps: seq<Step>, w: Way)
    requires Run(Begin(cap), steps).Some? && HowOf(Run(Begin(cap), steps).value.Of(w).phase) == Some(Clean)
    ensures var c := Run(Begin(cap), steps).value.Of(w); c.delivered == c.consumed
  {
    Reachable(cap, steps);
    var s := Run(Begin(cap), steps).value;
    assert Books(s.a) && Books(s.b);
  }

  /** Once both copiers have reported, the counts are the bytes delivered; the error is none exactly when both
      directions ended cleanly, is otherwise how one of them ended, and names the budget only if all of it was
      reserved; and both sides were torn down exactly for the directions that did not end cleanly. */
  lemma JoinReportsTruly(cap: uint64, steps: seq<Step>)
    requires Run(Begin(cap), steps).Some?
    requires var s := Run(Begin(cap), steps).value; s.a.phase.Reported? && s.b.phase.Reported?
    ensures var s := Run(Begin(cap), steps).value;
            && s.countA == Some(|s.a.delivered|) && s.countB == Some(|s.b.delivered|)
            && (s.first.None? <==> s.a.phase.how.Clean? && s.b.phase.how.Clean?)
            && (s.first.Some? ==>
                  !s.first.value.Clean? && (s.first.value == s.a.phase.how || s.first.value == s.b.phase.how))
            && (s.first == Some(BudgetExhausted) ==> cap > 0 && s.spent == cap)
            && (forall w: Way :: w in s.aborted <==> !s.Of(w).phase.how.Clean?)
  {
    Reachable(cap, steps);
    var s := Run(Begin(cap), steps).value;
    assert Results(s) && Cut(s, s.a) && Cut(s, s.b);
    assert s.Of(AToB) == s.a && s.Of(BToA) == s.b;
    if !s.a.phase.how.Clean? {
      assert AToB in s.aborted;
    }
    if !s.b.phase.how.Clean? {
      assert BToA in s.aborted;
    }
  }

  // One copier's own code, with what the rest of the world does between its steps as a parameter

  /** One read, what the other copier wants between the loads and swaps that follow, and the write. */
  datatype Turn = Turn(chunk: seq<byte>, er: ReadEnd, meanwhile: seq<nat>, written: nat, ok: bool)

  class Budget {
    const cap: uint64
    var spent: uint64

    constructor (cap: uint64)
      ensures this.cap == cap && spent == 0
    {
      this.cap, spent := cap, 0;
    }

    /** The other copier reserves up to `want`. */
    method Interfere(want: nat) returns (taken: nat)
      requires spent <= cap
      modifies this
      ensures spent == old(spent) + taken <= cap && taken <= want && (taken == 0 <==> want == 0 || old(spent) == cap)
    {
      taken := Min(want, cap - spent);
      spent := spent + taken;
    }

    /** The compare-and-swap loop. Whatever the other copier reserves in between: no more than is wanted, less
        only when it exhausts the cap, every byte of the counter accounted for, and a retry only where the other
        reserved something. */
    method Take(want: nat, meanwhile: seq<nat>) returns (grant: nat, others: nat, tries: nat)
      requires spent <= cap && want > 0
      modifies this
      ensures spent <= cap && grant <= want && tries <= |meanwhile| + 1
      ensures cap == 0 ==> grant == want && spent == old(spent)
      ensures cap > 0 ==> spent == old(spent) + others + grant && (grant < want ==> spent == cap)
      ensures others >= tries - 1
    {
      others, tries := 0, 0;
      if cap == 0 {
        return want, 0, 0;
      }
      var i := 0;
      while true
        invariant spent <= cap && i <= |meanwhile| && tries == i <= others + 1 && (i > 0 ==> tries <= others)
        invariant spent == old(spent) + others
        decreases |meanwhile| - i
      {
        var used := spent;
        if used >= cap {
          return 0, others, tries;
        }
        var left := cap - used;
        grant := if want > left then left else want;
        var taken := 0;
        if i < |meanwhile| {
          taken := Interfere(meanwhile[i]);
        }
        others, tries := others + taken, tries + 1;
        if spent == used {
          spent := used + grant;
          return grant, others, tries;
        }
        i := i + 1;
      }
    }

    /** The copy loop, until it ends or the script does. Each destination receives a prefix of its source, all of
        it on a clean end; the budget is cut only when it is all reserved; and what is delivered was reserved. */
    method CopyOneWay(turns: seq<Turn>) returns (consumed: seq<byte>, delivered: seq<byte>, how: Option<Ending>)
      requires spent <= cap
      modifies this
      ensures spent <= cap && delivered <= consumed
      ensures how == None || how == Some(Clean) ==> delivered == consumed
      ensures how == Some(BudgetExhausted) ==> cap > 0 && spent == cap
      ensures cap > 0 ==> old(spent) + |delivered| <= spent
    {
      consumed, delivered := [], [];
      for i := 0 to |turns|
        invariant spent <= cap && delivered == consumed
        invariant cap > 0 ==> old(spent) + |delivered| <= spent
      {
        var t := turns[i];
        var n := |t.chunk|;
        if n > 0 {
          consumed := consumed + t.chunk;
          var allowed, _, _ := Take(n, t.meanwhile);
          var written := Min(t.written, allowed);
          delivered := delivered + t.chunk[..written];
          assert consumed == delivered + t.chunk[written..];
          if allowed < n {
            return consumed, delivered, Some(BudgetExhausted);
          }
          if !t.ok {
            return consumed, delivered, Some(WriteError);
          }
          if written != n {
            return consumed, delivered, Some(ShortWrite);
          }
        }
        if t.er.Eof? {
          return consumed, delivered, Some(Clean);
        } else if t.er.ReadError? {
          return consumed, delivered, Some(ReadFailed);
        }
      }
      how := None;
    }
  }
}
