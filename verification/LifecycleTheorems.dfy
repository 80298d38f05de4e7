/** Safety of every reachable state: who owns an address, what is installed for it,
    and how many sessions there can be. */
module LifecycleTheorems {
  import opened Basics
  import opened Lifecycle
  import opened LifecycleInvariant

  lemma StepKeepsSize(s: State, e: Event)
    requires Enabled(s, e)
    ensures |Apply(s, e).bits| == |s.bits|
    ensures |Apply(s, e).conns| == |s.conns| + if e.Accept? then 1 else 0
  {
  }

  lemma {:induction false} RunInv(n: nat, r: Run, k: nat)
    requires IsRun(n, r) && k < |r.states|
    ensures Inv(r.states[k]) && |r.states[k].bits| == n
  {
    if k == 0 {
      InitInv(n);
    } else {
      RunInv(n, r, k - 1);
      StepKeepsInv(r.states[k - 1], r.events[k - 1]);
      StepKeepsSize(r.states[k - 1], r.events[k - 1]);
    }
  }

  // ------------------------------------------------------------- ownership

  /** A live handler, a live session or a dead session with the address. */
  predicate Owns(p: Phase, a: nat) {
    || p == Taken(a)
    || (p.Session? && p.session == Some(a) && p.stage != Finished)
    || (p.Dead? && p.session == Some(a))
  }

  lemma OwnsIsClaim(p: Phase, a: nat)
    ensures Owns(p, a) <==> HoldsAddr(ClaimOf(p), a)
  {
  }

  ghost predicate HasOwner(s: State, a: nat) {
    exists c :: 0 <= c < |s.conns| && Owns(s.conns[c].phase, a)
  }

  /** In every reachable state, with any calls failed: a bit is set exactly when
      some connection owns its address, no two connections own one address, and
      owned addresses lie in 1..n. */
  lemma {:induction false} Ownership(n: nat, r: Run, k: nat)
    requires IsRun(n, r) && k < |r.states|
    ensures var s := r.states[k];
            && |s.bits| == n
            && (forall a: nat :: InUse(s.bits, a) <==> HasOwner(s, a))
            && (forall c, d, a: nat ::
                  (0 <= c < |s.conns| && 0 <= d < |s.conns| && Owns(s.conns[c].phase, a) && Owns(s.conns[d].phase, a))
                  ==> c == d)
            && (forall c, a: nat :: 0 <= c < |s.conns| && Owns(s.conns[c].phase, a) ==> 1 <= a <= n)
  {
    RunInv(n, r, k);
    var s := r.states[k];
    var cs := Claims(s);
    forall c, a: nat | 0 <= c < |s.conns|
      ensures Owns(s.conns[c].phase, a) <==> HoldsAddr(cs[c], a)
    {
      OwnsIsClaim(s.conns[c].phase, a);
    }
    forall a: nat
      ensures InUse(s.bits, a) <==> HasOwner(s, a)
    {
      if InUse(s.bits, a) {
        assert HasHolder(cs, a);
      }
    }
  }

  /** `relinquish_addr` asserts only addr <= N + 1, which would index one past the
      array; no reachable task ever passes that value. */
  lemma {:induction false} ReleaseInBounds(n: nat, r: Run, k: nat, c: nat)
    requires IsRun(n, r) && k < |r.states| && c < |r.states[k].conns|
    requires InSession(r.states[k].conns[c].phase, Relinquishing)
    ensures var p := r.states[k].conns[c].phase;
            p.session.Some? && 1 <= p.session.value <= n && InUse(r.states[k].bits, p.session.value)
  {
    RunInv(n, r, k);
    var s := r.states[k];
    assert WellShaped(n, s.conns[c].phase);
    assert Claims(s)[c].Held?;
  }

  // ------------------------------------------------------------- what can happen

  /** Every external call can succeed, fail, and fail after having acted. */
  lemma EveryCallMayFail(s: State, c: nat, ok: bool, effect: bool)
    requires !s.ended && !s.aborted && c < |s.conns| && s.conns[c].phase.Session?
    requires var st := s.conns[c].phase.stage;
             || st.Spawned? || st.AddingEth? || st.CreatingContainer? || st.StartingContainer? || st.Inspecting?
             || st.AddingRule? || st.AddingPeer? || st.RemovingPeer? || st.Connecting? || st.DeletingRule?
             || st.DeletingEth?
    ensures Enabled(s, Call(c, ok, effect)) <==> (ok ==> effect)
  {
  }

  /** What a guest's call changes, if it acts: one entry of one kind at its address, or the
      container. Whether it is reported as a success makes no difference to that. */
  lemma CallChanges(s: State, c: nat, a: nat, ok: bool, effect: bool)
    requires Enabled(s, Call(c, ok, effect)) && s.conns[c].phase.session == Some(a)
    ensures var st, s' := s.conns[c].phase.stage, Apply(s, Call(c, ok, effect));
            && s'.bits == s.bits
            && s'.running == (if effect && st.StartingContainer? then s.running + {c} else s.running)
            && s'.net.eth == (if effect && st.AddingEth? then s.net.eth + multiset{a}
                              else if effect && st.DeletingEth? then s.net.eth - multiset{a} else s.net.eth)
            && s'.net.rules == (if effect && st.AddingRule? then s.net.rules + multiset{a}
                                else if effect && st.DeletingRule? then s.net.rules - multiset{a} else s.net.rules)
            && s'.net.peers == (if effect && st.AddingPeer? then s.net.peers + multiset{a}
                                else if effect && st.RemovingPeer? then s.net.peers - multiset{a} else s.net.peers)
            && (s'.aborted <==> !ok && st.Connecting?)
            && c < |s'.conns| && (s'.conns[c].phase.Dead? <==> !ok)
  {
  }

  /** A supervisor can be woken by its timer and by its container at any time, and by the
      token once that is cancelled. */
  lemma EveryWakeUp(s: State, c: nat)
    requires !s.ended && !s.aborted && c < |s.conns| && InSession(s.conns[c].phase, Waiting)
    ensures Enabled(s, Wake(c, Timer)) && Enabled(s, Wake(c, ContainerGone))
    ensures Enabled(s, Wake(c, Cancelled)) <==> s.cancelled
  {
  }

  /** A stop that succeeds has stopped the container, 404 means that none is left, and any
      other error leaves open whether it acted. */
  lemma EveryStopAnswer(s: State, c: nat, killed: bool)
    requires !s.ended && !s.aborted && c < |s.conns| && InSession(s.conns[c].phase, Stopping)
    ensures Enabled(s, Stop(c, StopOk, killed)) <==> killed
    ensures Enabled(s, Stop(c, StopGone, killed)) <==> c !in s.running
    ensures Enabled(s, Stop(c, StopFailed, killed))
  {
  }

  /** Containers exit at any time; connections come until the cancellation; the tracker is
      seen empty after it, and only then `main` resumes. */
  lemma EveryoneElse(s: State, c: nat, input: seq<byte>)
    requires !s.ended && !s.aborted
    ensures Enabled(s, ContainerExit(c)) <==> c in s.running
    ensures Enabled(s, Accept(input)) <==> !s.cancelled
    ensures Enabled(s, Cancel) <==> !s.cancelled
    ensures Enabled(s, Drained) <==> s.cancelled && !s.drained && TrackerEmpty(s)
    ensures Enabled(s, WaitReturns) <==> s.drained
  {
  }

  // ------------------------------------------------------------- nesting

  /** A peer implies a DNAT rule, which implies an eth42 address, which implies a
      set bit; there is never more than one of each for an address. */
  lemma {:induction false} Nesting(n: nat, r: Run, k: nat, a: nat)
    requires IsRun(n, r) && k < |r.states|
    ensures var s := r.states[k];
            && s.net.peers[a] <= s.net.rules[a] <= s.net.eth[a] <= 1
            && (s.net.eth[a] > 0 ==> 1 <= a <= n && InUse(s.bits, a))
  {
    RunInv(n, r, k);
    var s := r.states[k];
    if !Empty(s.net, a) {
      assert InUse(s.bits, a);
      assert HasHolder(Claims(s), a);
      var c :| 0 <= c < |s.conns| && HoldsAddr(Claims(s)[c], a);
      assert Matches(s.net, Claims(s)[c]);
      ClaimNests(s.conns[c].phase);
    }
  }

  lemma ClaimNests(p: Phase)
    ensures ClaimOf(p).Held? ==> (ClaimOf(p).peer ==> ClaimOf(p).rule) && (ClaimOf(p).rule ==> ClaimOf(p).eth)
  {
  }

  /** What is installed at an address is exactly what its one owner's progress says:
      as many entries of each kind as that stage has, none beside them. */
  lemma {:induction false} InstalledByOwner(n: nat, r: Run, k: nat, c: nat, a: nat)
    requires IsRun(n, r) && k < |r.states| && c < |r.states[k].conns|
    requires Owns(r.states[k].conns[c].phase, a)
    ensures Matches(r.states[k].net, ClaimOf(r.states[k].conns[c].phase))
    ensures HoldsAddr(ClaimOf(r.states[k].conns[c].phase), a)
  {
    RunInv(n, r, k);
    OwnsIsClaim(r.states[k].conns[c].phase, a);
    assert Matches(r.states[k].net, Claims(r.states[k])[c]);
  }

  /** Anything installed has an owner past its spawn. */
  lemma {:induction false} InstalledHasOwner(n: nat, r: Run, k: nat, a: nat) returns (c: nat)
    requires IsRun(n, r) && k < |r.states| && !Empty(r.states[k].net, a)
    ensures c < |r.states[k].conns| && Owns(r.states[k].conns[c].phase, a)
    ensures Tracked(r.states[k].conns[c].phase) || r.states[k].conns[c].phase.Dead?
  {
    RunInv(n, r, k);
    var s := r.states[k];
    assert InUse(s.bits, a);
    assert HasHolder(Claims(s), a);
    c :| 0 <= c < |s.conns| && HoldsAddr(Claims(s)[c], a);
    OwnsIsClaim(s.conns[c].phase, a);
    assert Matches(s.net, Claims(s)[c]);
  }

  /** No add command ever meets an existing entry for its address, and every delete
      command finds exactly one. */
  lemma {:induction false} CommandsMeetTheirTarget(n: nat, r: Run, k: nat, c: nat, a: nat)
    requires IsRun(n, r) && k < |r.states| && c < |r.states[k].conns|
    requires r.states[k].conns[c].phase.Session? && r.states[k].conns[c].phase.session == Some(a)
    ensures var s := r.states[k];
            match s.conns[c].phase.stage
            case AddingEth => Empty(s.net, a)
            case AddingRule => s.net.rules[a] == 0 && s.net.peers[a] == 0
            case AddingPeer => s.net.peers[a] == 0
            case RemovingPeer => s.net.peers[a] == 1
            case DeletingRule => s.net.rules[a] == 1 && s.net.peers[a] == 0
            case DeletingEth => s.net.eth[a] == 1 && s.net.rules[a] == 0
            case Relinquishing => Empty(s.net, a)
            case _ => true
  {
    if r.states[k].conns[c].phase.stage != Finished {
      InstalledByOwner(n, r, k, c, a);
    }
  }

  // ------------------------------------------------------------- counting

  function HolderWeight(conn: Conn): nat {
    Count(ClaimOf(conn.phase).Held?)
  }

  function DeadHolderWeight(conn: Conn): nat {
    Count(conn.phase.Dead? && conn.phase.session.Some?)
  }

  function LiveHolderWeight(conn: Conn): nat {
    Count(ClaimOf(conn.phase).Held? && !conn.phase.Dead?)
  }

  function GuestSessionWeight(conn: Conn): nat {
    Count(Tracked(conn.phase) && conn.phase.session.Some?)
  }

  ghost function SetBits(s: State): nat {
    SumOf(Count, s.bits)
  }

  ghost function Holders(s: State): nat {
    SumOf(HolderWeight, s.conns)
  }

  ghost function DeadHolders(s: State): nat {
    SumOf(DeadHolderWeight, s.conns)
  }

  ghost function LiveHolders(s: State): nat {
    SumOf(LiveHolderWeight, s.conns)
  }

  ghost function GuestSessions(s: State): nat {
    SumOf(GuestSessionWeight, s.conns)
  }

  lemma {:induction false} SetBitsBound(bits: seq<bool>)
    ensures SumOf(Count, bits) <= |bits|
  {
    if bits != [] {
      SetBitsBound(bits[1..]);
    }
  }

  lemma StepBalance(s: State, e: Event)
    requires Inv(s) && Enabled(s, e)
    ensures SetBits(Apply(s, e)) + Holders(s) == SetBits(s) + Holders(Apply(s, e))
    ensures DeadHolders(s) <= DeadHolders(Apply(s, e))
  {
    var s' := Apply(s, e);
    match e {
      case Accept(input) =>
        SumAppend(HolderWeight, s.conns, Conn(input, Reading));
        SumAppend(DeadHolderWeight, s.conns, Conn(input, Reading));
      case ContainerExit(_) =>
      case Cancel =>
      case Drained =>
      case WaitReturns =>
      case _ => ConnBalance(s, e);
    }
  }

  predicate OfConn(e: Event) {
    !e.Accept? && !e.ContainerExit? && !e.Cancel? && !e.Drained? && !e.WaitReturns?
  }

  /** A step of one connection changes that connection alone, and no dead or closed
      connection ever steps again. */
  lemma OneConnSteps(s: State, e: Event)
    requires Enabled(s, e) && OfConn(e)
    ensures e.c < |s.conns|
    ensures Apply(s, e).conns == s.conns[e.c := Apply(s, e).conns[e.c]]
    ensures !s.conns[e.c].phase.Dead? && !s.conns[e.c].phase.Closed?
  {
  }

  lemma ConnBalance(s: State, e: Event)
    requires Inv(s) && Enabled(s, e) && OfConn(e)
    ensures SetBits(Apply(s, e)) + Holders(s) == SetBits(s) + Holders(Apply(s, e))
    ensures DeadHolders(s) <= DeadHolders(Apply(s, e))
  {
    var s' := Apply(s, e);
    OneConnSteps(s, e);
    SumUpdate(HolderWeight, s.conns, e.c, s'.conns[e.c]);
    SumUpdate(DeadHolderWeight, s.conns, e.c, s'.conns[e.c]);
    BitBalance(s, e);
  }

  lemma BitBalance(s: State, e: Event)
    requires Inv(s) && Enabled(s, e) && OfConn(e) && e.c < |s.conns|
    ensures SetBits(Apply(s, e)) + HolderWeight(s.conns[e.c]) == SetBits(s) + HolderWeight(Apply(s, e).conns[e.c])
  {
    if IsQuiet(e) {
      QuietClaim(s, e);
    } else if e.Probe? {
      ProbeBalance(s, e.c);
    } else if e.Release? {
      ReleaseBalance(s, e.c);
    } else {
      CallBalance(s, e);
    }
  }

  lemma ProbeBalance(s: State, c: nat)
    requires Inv(s) && Enabled(s, Probe(c))
    ensures var s' := Apply(s, Probe(c));
            && c < |s'.conns|
            && SetBits(s') + HolderWeight(s.conns[c]) == SetBits(s) + HolderWeight(s'.conns[c])
  {
    SumUpdate(Count, s.bits, s.conns[c].phase.next, true);
  }

  /** A call keeps its address, whether it succeeds or not. */
  lemma CallBalance(s: State, e: Event)
    requires Enabled(s, e) && e.Call? && e.c < |s.conns| == |Apply(s, e).conns|
    ensures Apply(s, e).bits == s.bits && HolderWeight(Apply(s, e).conns[e.c]) == HolderWeight(s.conns[e.c])
  {
  }

  lemma ReleaseBalance(s: State, c: nat)
    requires Inv(s) && Enabled(s, Release(c))
    ensures var s' := Apply(s, Release(c));
            && c < |s'.conns|
            && SetBits(s') + HolderWeight(s.conns[c]) == SetBits(s) + HolderWeight(s'.conns[c])
  {
    HolderInUse(s, c, s.conns[c].phase.session.value);
    SumUpdate(Count, s.bits, s.conns[c].phase.session.value - 1, false);
  }

  lemma HolderInUse(s: State, c: nat, a: nat)
    requires Inv(s) && c < |s.conns| && Owns(s.conns[c].phase, a)
    ensures InUse(s.bits, a)
  {
    OwnsIsClaim(s.conns[c].phase, a);
    assert HoldsAddr(Claims(s)[c], a);
  }

  lemma {:induction false} RunBalance(n: nat, r: Run, k: nat)
    requires IsRun(n, r) && k < |r.states|
    ensures SetBits(r.states[k]) == Holders(r.states[k])
  {
    if k == 0 {
      SumZero(Count, Init(n).bits);
    } else {
      RunBalance(n, r, k - 1);
      RunInv(n, r, k - 1);
      StepBalance(r.states[k - 1], r.events[k - 1]);
    }
  }

  /** Set bits are exactly the live and the dead holders, so at most n guest
      sessions are ever alive; every dead holder costs one for good. */
  lemma {:induction false} Capacity(n: nat, r: Run, k: nat)
    requires IsRun(n, r) && k < |r.states|
    ensures SetBits(r.states[k]) == LiveHolders(r.states[k]) + DeadHolders(r.states[k])
    ensures GuestSessions(r.states[k]) + DeadHolders(r.states[k]) <= n
  {
    var s := r.states[k];
    RunBalance(n, r, k);
    RunInv(n, r, k);
    HoldersSplit(s.conns);
    SetBitsBound(s.bits);
    SumAtMost(GuestSessionWeight, LiveHolderWeight, s.conns);
  }

  lemma {:induction false} HoldersSplit(conns: seq<Conn>)
    ensures SumOf(HolderWeight, conns) == SumOf(LiveHolderWeight, conns) + SumOf(DeadHolderWeight, conns)
  {
    if conns != [] {
      HoldersSplit(conns[1..]);
    }
  }

  lemma {:induction false} DeadHoldersNeverFall(n: nat, r: Run, j: nat, k: nat)
    requires IsRun(n, r) && j <= k < |r.states|
    ensures DeadHolders(r.states[j]) <= DeadHolders(r.states[k])
    decreases k - j
  {
    if j < k {
      DeadHoldersNeverFall(n, r, j, k - 1);
      RunInv(n, r, k - 1);
      StepBalance(r.states[k - 1], r.events[k - 1]);
    }
  }
}
