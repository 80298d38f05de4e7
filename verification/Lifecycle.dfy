/** The daemon as a transition system. Connections, the shared address bits, the
    network resources and the running containers change one atomic step at a time,
    in any interleaving; every external call may fail, with or without effect. */
module Lifecycle {
  import opened Basics
  import Wire

  /** Where a tracked session task is: each stage names the call it makes next. */
  datatype Stage =
    | Spawned            // connect to Docker (container.rs:30)
    | AddingEth          // `ip addr add` on eth42, guests only
    | CreatingContainer
    | StartingContainer
    | Inspecting         // read the bridge address, guests only
    | AddingRule         // `iptables -A ... DNAT`, guests only
    | AddingPeer         // configure the WireGuard peer, guests only
    | Waiting            // the supervisor's select
    | RemovingPeer       // guests only
    | Connecting         // shutdown connects to Docker; the container id is still held
    | Stopping           // the id has been taken; stop request in flight
    | DeletingRule       // guests only
    | DeletingEth        // guests only
    | Relinquishing      // clear the address bit, guests only
    | Finished

  function Rank(st: Stage): nat {
    match st
    case Spawned => 0
    case AddingEth => 1
    case CreatingContainer => 2
    case StartingContainer => 3
    case Inspecting => 4
    case AddingRule => 5
    case AddingPeer => 6
    case Waiting => 7
    case RemovingPeer => 8
    case Connecting => 9
    case Stopping => 10
    case DeletingRule => 11
    case DeletingEth => 12
    case Relinquishing => 13
    case Finished => 14
  }

  function Next(guest: bool, st: Stage): Stage
    requires st != Finished
  {
    match st
    case Spawned => if guest then AddingEth else CreatingContainer
    case AddingEth => CreatingContainer
    case CreatingContainer => StartingContainer
    case StartingContainer => if guest then Inspecting else Waiting
    case Inspecting => AddingRule
    case AddingRule => AddingPeer
    case AddingPeer => Waiting
    case Waiting => if guest then RemovingPeer else Connecting
    case RemovingPeer => Connecting
    case Connecting => Stopping
    case Stopping => if guest then DeletingRule else Finished
    case DeletingRule => DeletingEth
    case DeletingEth => Relinquishing
    case Relinquishing => Finished
  }

  predicate GuestOnly(st: Stage) {
    || st.AddingEth? || st.Inspecting? || st.AddingRule? || st.AddingPeer?
    || st.RemovingPeer? || st.DeletingRule? || st.DeletingEth? || st.Relinquishing?
  }

  /** The stages whose external call can fail and panic the task. */
  predicate Fallible(st: Stage) {
    !st.Waiting? && !st.Stopping? && !st.Relinquishing? && !st.Finished?
  }

  /** What is installed, by the address it was installed for. Multisets, so that
      nothing in the model rules out duplicates. */
  datatype Net = Net(eth: multiset<nat>, rules: multiset<nat>, peers: multiset<nat>) {
    function After(addr: Option<nat>, st: Stage): Net {
      match addr
      case None => this
      case Some(a) =>
        match st
        case AddingEth => this.(eth := eth + multiset{a})
        case AddingRule => this.(rules := rules + multiset{a})
        case AddingPeer => this.(peers := peers + multiset{a})
        case RemovingPeer => this.(peers := peers - multiset{a})
        case DeletingRule => this.(rules := rules - multiset{a})
        case DeletingEth => this.(eth := eth - multiset{a})
        case _ => this
    }
  }

  /** A connection from accept to the end of its session. Up to `Spawn` it is an
      untracked handler; from then on the tracker counts it until it finishes or dies. */
  datatype Phase =
    | Reading
    | Scanning(next: nat)
    | Taken(addr: nat)
    | DemoReady
    | Closed(code: byte)
    | Session(session: Option<nat>, stage: Stage)
    | Dead(session: Option<nat>, stage: Stage, effect: bool)

  datatype Conn = Conn(input: seq<byte>, phase: Phase)

  datatype State = State(
    bits: seq<bool>,
    conns: seq<Conn>,
    net: Net,
    running: set<nat>,
    cancelled: bool,
    drained: bool,
    ended: bool,
    aborted: bool)

  function Init(n: nat): State {
    State(seq(n, i => false), [], Net(multiset{}, multiset{}, multiset{}), {}, false, false, false, false)
  }

  datatype StopOutcome = StopOk | StopGone | StopFailed
  datatype WakeReason = Timer | Cancelled | ContainerGone

  datatype Event =
    | Accept(input: seq<byte>)
    | Parse(c: nat)
    | Probe(c: nat)                                // one `fetch_or`
    | GiveUp(c: nat)                               // the scan ran off the end: BUSY
    | Spawn(c: nat)
    | Call(c: nat, ok: bool, effect: bool)
    | Wake(c: nat, reason: WakeReason)
    | Stop(c: nat, outcome: StopOutcome, killed: bool)
    | Release(c: nat)                              // the unconditional `store(false)`
    | ContainerExit(c: nat)
    | Cancel                                       // leave the accept loop, cancel, close
    | Drained                                      // the closed tracker is seen empty
    | WaitReturns                                  // later, `main` resumes

  predicate InSession(p: Phase, st: Stage) {
    p.Session? && p.stage == st
  }

  /** The tracker still counts this task. */
  predicate Tracked(p: Phase) {
    p.Session? && p.stage != Finished
  }

  predicate TrackerEmpty(s: State) {
    forall c :: 0 <= c < |s.conns| ==> !Tracked(s.conns[c].phase)
  }

  predicate Enabled(s: State, e: Event) {
    && !s.ended
    && !s.aborted
    && match e
       case Accept(_) => !s.cancelled
       case Parse(c) => c < |s.conns| && s.conns[c].phase.Reading?
       case Probe(c) => c < |s.conns| && s.conns[c].phase.Scanning? && s.conns[c].phase.next < |s.bits|
       case GiveUp(c) => c < |s.conns| && s.conns[c].phase == Scanning(|s.bits|)
       case Spawn(c) => c < |s.conns| && (s.conns[c].phase.Taken? || s.conns[c].phase.DemoReady?)
       case Call(c, ok, effect) =>
         && c < |s.conns|
         && s.conns[c].phase.Session?
         && Fallible(s.conns[c].phase.stage)
         && (ok ==> effect)
       case Wake(c, reason) =>
         && c < |s.conns|
         && InSession(s.conns[c].phase, Waiting)
         && (reason == Cancelled ==> s.cancelled)
       case Stop(c, outcome, killed) =>
         && c < |s.conns|
         && InSession(s.conns[c].phase, Stopping)
         && (outcome.StopOk? ==> killed)
         && (outcome.StopGone? ==> c !in s.running)
       case Release(c) =>
         && c < |s.conns|
         && InSession(s.conns[c].phase, Relinquishing)
         && s.conns[c].phase.session.Some?
         && 1 <= s.conns[c].phase.session.value <= |s.bits|
       case ContainerExit(c) => c in s.running
       case Cancel => !s.cancelled
       case Drained => s.cancelled && !s.drained && TrackerEmpty(s)
       case WaitReturns => s.drained
  }

  function WithPhase(s: State, c: nat, p: Phase): State
    requires c < |s.conns|
  {
    s.(conns := s.conns[c := s.conns[c].(phase := p)])
  }

  function ParsedPhase(input: seq<byte>): Phase {
    match Wire.DecodeRequest(input)
    case Malformed => Closed(Wire.RESULT_MALFORMED_REQUEST)
    case InvalidPort => Closed(Wire.RESULT_INVALID_PORT)
    case Accepted(r, _) => if r.mode.Guest? then Scanning(0) else DemoReady
  }

  function AfterCall(addr: Option<nat>, st: Stage, ok: bool, effect: bool): Phase
    requires Fallible(st)
  {
    if ok then Session(addr, Next(addr.Some?, st)) else Dead(addr, st, effect)
  }

  function ApplyCall(s: State, c: nat, ok: bool, effect: bool): State
    requires Enabled(s, Call(c, ok, effect))
  {
    var Session(addr, st) := s.conns[c].phase;
    WithPhase(s, c, AfterCall(addr, st, ok, effect)).(
    net := if effect then s.net.After(addr, st) else s.net,
    running := if effect && st == StartingContainer then s.running + {c} else s.running,
    // a panic while `shutdown` still holds the id makes `drop` panic again: abort
    aborted := !ok && st == Connecting)
  }

  function ApplyStop(s: State, c: nat, outcome: StopOutcome, killed: bool): State
    requires Enabled(s, Stop(c, outcome, killed))
  {
    var addr := s.conns[c].phase.session;
    WithPhase(s, c, Session(addr, Next(addr.Some?, Stopping))).(
    running := if killed then s.running - {c} else s.running)
  }

  function Apply(s: State, e: Event): State
    requires Enabled(s, e)
  {
    match e
    case Accept(input) => s.(conns := s.conns + [Conn(input, Reading)])
    case Parse(c) => WithPhase(s, c, ParsedPhase(s.conns[c].input))
    case Probe(c) =>
      var i := s.conns[c].phase.next;
      WithPhase(s, c, if s.bits[i] then Scanning(i + 1) else Taken(i + 1)).(bits := s.bits[i := true])
    case GiveUp(c) => WithPhase(s, c, Closed(Wire.RESULT_BUSY))
    case Spawn(c) =>
      var p := s.conns[c].phase;
      WithPhase(s, c, Session(if p.Taken? then Some(p.addr) else None, Spawned))
    case Call(c, ok, effect) => ApplyCall(s, c, ok, effect)
    case Wake(c, _) => WithPhase(s, c, Session(s.conns[c].phase.session, Next(s.conns[c].phase.session.Some?, Waiting)))
    case Stop(c, outcome, killed) => ApplyStop(s, c, outcome, killed)
    case Release(c) =>
      var addr := s.conns[c].phase.session;
      WithPhase(s, c, Session(addr, Finished)).(bits := s.bits[addr.value - 1 := false])
    case ContainerExit(c) => s.(running := s.running - {c})
    case Cancel => s.(cancelled := true)
    case Drained => s.(drained := true)
    case WaitReturns => s.(ended := true)
  }

  /** A run: states joined by events, starting with every bit clear. */
  datatype Run = Run(states: seq<State>, events: seq<Event>)

  ghost predicate IsPath(r: Run) {
    && |r.states| == |r.events| + 1
    && forall k {:trigger r.events[k]} :: 0 <= k < |r.events| ==>
         Enabled(r.states[k], r.events[k]) && r.states[k + 1] == Apply(r.states[k], r.events[k])
  }

  ghost predicate IsRun(n: nat, r: Run) {
    IsPath(r) && r.states[0] == Init(n)
  }
}
