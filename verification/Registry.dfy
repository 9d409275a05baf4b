/** The relay's registry of connected agents, by device. */
module Registry {
  import opened Bytes
  import opened Strings

  /** A session object. */
  type Conn = nat

  type Agents = map<Text, Conn>

  function Added(agents: Agents, d: Text, s: Conn): (Option<Conn>, Agents) {
    (if d in agents then Some(agents[d]) else None, agents[d := s])
  }

  function Removed(agents: Agents, d: Text, s: Conn): Agents {
    if d in agents && agents[d] == s then agents - {d} else agents
  }

  /** `ended` are the sessions that have ended by now. */
  function Got(agents: Agents, d: Text, ended: set<Conn>): (Option<Conn>, Agents) {
    if d !in agents then (None, agents)
    else if agents[d] in ended then (None, agents - {d})
    else (Some(agents[d]), agents)
  }

  class Connected {
    var agents: Agents

    constructor ()
      ensures agents == map[]
    {
      agents := map[];
    }

    method Add(d: Text, s: Conn) returns (replaced: Option<Conn>)
      modifies this
      ensures (replaced, agents) == Added(old(agents), d, s)
    {
      replaced := if d in agents then Some(agents[d]) else None;
      agents := agents[d := s];
    }

    method Remove(d: Text, s: Conn)
      modifies this
      ensures agents == Removed(old(agents), d, s)
    {
      if d in agents && agents[d] == s {
        agents := agents - {d};
      }
    }

    method Get(d: Text, ended: set<Conn>) returns (s: Option<Conn>)
      modifies this
      ensures (s, agents) == Got(old(agents), d, ended)
    {
      if d !in agents {
        return None;
      }
      if agents[d] in ended {
        agents := agents - {d};
        return None;
      }
      return Some(agents[d]);
    }
  }

  /** `device` says where each session connected, `latest` the last one to connect for each device, `ended` which
      have ended, `left` whose cleanup has run, and `replaced` those handed back to be closed. */
  datatype State = State(
    agents: Agents,
    device: map<Conn, Text>,
    latest: map<Text, Conn>,
    ended: set<Conn>,
    left: set<Conn>,
    replaced: seq<Conn>)

  const BEGIN := State(map[], map[], map[], {}, {}, [])

  datatype Event = Connects(d: Text, s: Conn) | Finishes(s: Conn) | Leaves(s: Conn) | Asks(d: Text)

  /** A session connects once, and its cleanup runs after it ended. */
  predicate Possible(st: State, ev: Event) {
    match ev
    case Connects(_, s) => s !in st.device
    case Finishes(s) => s in st.device
    case Leaves(s) => s in st.ended && s in st.device
    case Asks(_) => true
  }

  function Happen(st: State, ev: Event): State
    requires Possible(st, ev)
  {
    match ev
    case Connects(d, s) =>
      var (was, agents) := Added(st.agents, d, s);
      st.(agents := agents, device := st.device[s := d], latest := st.latest[d := s],
          replaced := if was.Some? then st.replaced + [was.value] else st.replaced)
    case Finishes(s) => st.(ended := st.ended + {s})
    case Leaves(s) => st.(agents := Removed(st.agents, st.device[s], s), left := st.left + {s})
    case Asks(d) => st.(agents := Got(st.agents, d, st.ended).1)
  }

  ghost predicate Reaches(st: State, events: seq<Event>, st': State)
    decreases |events|
  {
    if events == [] then st == st' else Possible(st, events[0]) && Reaches(Happen(st, events[0]), events[1..], st')
  }

  ghost predicate Sound(st: State) {
    && (forall d | d in st.agents :: d in st.latest && st.agents[d] == st.latest[d])
    && (forall d | d in st.latest :: st.latest[d] in st.device && st.device[st.latest[d]] == d)
    && (forall d | d in st.latest && st.latest[d] !in st.ended :: d in st.agents)
    && (forall s | s in st.left :: s in st.device && (st.device[s] in st.agents ==> st.agents[st.device[s]] != s))
    && (forall i | 0 <= i < |st.replaced| :: st.replaced[i] in st.device &&
          st.device[st.replaced[i]] in st.latest && st.latest[st.device[st.replaced[i]]] != st.replaced[i])
  }

  lemma HappenSound(st: State, ev: Event)
    requires Sound(st) && Possible(st, ev)
    ensures Sound(Happen(st, ev))
  {
  }

  lemma {:induction false} ReachesSound(st: State, events: seq<Event>, st': State)
    requires Sound(st) && Reaches(st, events, st')
    ensures Sound(st')
    decreases |events|
  {
    if events != [] {
      HappenSound(st, events[0]);
      ReachesSound(Happen(st, events[0]), events[1..], st');
    }
  }

  /** In every run a lookup finds exactly the session that connected last for the device, if it has not ended: a
      late cleanup of an older session never evicts its successor, and an ended session is never handed out.
      Only sessions that a later one took over from are handed back to be closed. */
  lemma LookupFindsTheLatest(events: seq<Event>, st: State, d: Text)
    requires Reaches(BEGIN, events, st)
    ensures Got(st.agents, d, st.ended).0 ==
            if d in st.latest && st.latest[d] !in st.ended then Some(st.latest[d]) else None
    ensures forall s | s in st.replaced :: s in st.device && st.device[s] in st.latest && st.latest[st.device[s]] != s
  {
    ReachesSound(BEGIN, events, st);
  }
}
