/** The life of a session as a run shows it: every step in its place, from the address
    won to the address given back, and what each of them changed. */
module LifecycleOrder {
  import opened Basics
  import opened Lifecycle
  import opened LifecycleInvariant
  import opened LifecycleTheorems
  import opened LifecycleHistory
  import opened LifecycleContainers

  // ------------------------------------------------------------- one stage back

  lemma OwnEntry(s: State, e: Event, addr: Option<nat>, st: Stage)
    requires Enabled(s, e) && OfConn(e) && e.c < |s.conns| == |Apply(s, e).conns| && st != Spawned
    requires Apply(s, e).conns[e.c].phase == Session(addr, st)
    ensures var p := s.conns[e.c].phase;
            && p.Session? && p.session == addr && p.stage != Finished
            && Next(addr.Some?, p.stage) == st && Completes(e, e.c, p.stage)
  {
  }

  lemma SameSource(guest: bool, st: Stage, prev: Stage)
    requires st != Finished && prev != Finished && Next(guest, st) == Next(guest, prev)
    requires !guest ==> !GuestOnly(st) && !GuestOnly(prev)
    ensures st == prev
  {
  }

  /** Step `k` takes connection `c` out of stage `st`. */
  ghost predicate Leaves(r: Run, k: nat, c: nat, addr: Option<nat>, st: Stage) {
    k < |r.events| && At(r, k, c, Session(addr, st)) && Completes(r.events[k], c, st)
  }

  /** A session at a stage has completed the stage before it. */
  lemma {:induction false} CameFrom(n: nat, r: Run, hi: nat, c: nat, addr: Option<nat>, prev: Stage) returns (k: nat)
    requires IsRun(n, r) && prev != Finished && (addr.None? ==> !GuestOnly(prev))
    requires Next(addr.Some?, prev) != Spawned && At(r, hi, c, Session(addr, Next(addr.Some?, prev)))
    ensures k < hi && Leaves(r, k, c, addr, prev)
  {
    var st := Next(addr.Some?, prev);
    k := hi - 1;
    var s, e := r.states[k], r.events[k];
    if OfConn(e) && e.c == c {
      OneConnSteps(s, e);
      OwnEntry(s, e, addr, st);
      RunInv(n, r, k);
      assert WellShaped(n, s.conns[c].phase);
      SameSource(addr.Some?, s.conns[c].phase.stage, prev);
    } else {
      if c < |s.conns| {
        OthersStay(s, e, c);
      }
      k := CameFrom(n, r, k, c, addr, prev);
    }
  }

  // ------------------------------------------------------------- what the steps change

  ghost predicate Succeeds(r: Run, k: nat, c: nat, addr: Option<nat>, st: Stage) {
    k < |r.events| && At(r, k, c, Session(addr, st)) && r.events[k] == Call(c, true, true)
  }

  lemma EthAdded(n: nat, r: Run, k: nat, c: nat, a: nat)
    requires IsRun(n, r) && Succeeds(r, k, c, Some(a), AddingEth)
    ensures r.states[k].net.eth[a] == 0 && r.states[k + 1].net.eth[a] == 1
  {
    CommandsMeetTheirTarget(n, r, k, c, a);
  }

  lemma RuleAdded(n: nat, r: Run, k: nat, c: nat, a: nat)
    requires IsRun(n, r) && Succeeds(r, k, c, Some(a), AddingRule)
    ensures r.states[k].net.rules[a] == 0 && r.states[k + 1].net.rules[a] == 1
  {
    CommandsMeetTheirTarget(n, r, k, c, a);
  }

  lemma PeerAdded(n: nat, r: Run, k: nat, c: nat, a: nat)
    requires IsRun(n, r) && Succeeds(r, k, c, Some(a), AddingPeer)
    ensures r.states[k].net.peers[a] == 0 && r.states[k + 1].net.peers[a] == 1
  {
    CommandsMeetTheirTarget(n, r, k, c, a);
  }

  lemma PeerRemoved(n: nat, r: Run, k: nat, c: nat, a: nat)
    requires IsRun(n, r) && Succeeds(r, k, c, Some(a), RemovingPeer)
    ensures r.states[k].net.peers[a] == 1 && r.states[k + 1].net.peers[a] == 0
  {
    CommandsMeetTheirTarget(n, r, k, c, a);
  }

  lemma RuleRemoved(n: nat, r: Run, k: nat, c: nat, a: nat)
    requires IsRun(n, r) && Succeeds(r, k, c, Some(a), DeletingRule)
    ensures r.states[k].net.rules[a] == 1 && r.states[k + 1].net.rules[a] == 0
  {
    CommandsMeetTheirTarget(n, r, k, c, a);
  }

  lemma EthRemoved(n: nat, r: Run, k: nat, c: nat, a: nat)
    requires IsRun(n, r) && Succeeds(r, k, c, Some(a), DeletingEth)
    ensures r.states[k].net.eth[a] == 1 && r.states[k + 1].net.eth[a] == 0
  {
    CommandsMeetTheirTarget(n, r, k, c, a);
  }

  lemma Started(n: nat, r: Run, k: nat, c: nat, addr: Option<nat>)
    requires IsRun(n, r) && Succeeds(r, k, c, addr, StartingContainer)
    ensures c !in r.states[k].running && c in r.states[k + 1].running
  {
    if c in r.states[k].running {
      RunningMeansStarted(n, r, k, c);
    }
    RunningStep(r.states[k], r.events[k], c);
  }

  lemma Released(n: nat, r: Run, k: nat, c: nat, a: nat)
    requires IsRun(n, r) && Leaves(r, k, c, Some(a), Relinquishing)
    ensures 1 <= a <= n && InUse(r.states[k].bits, a) && !InUse(r.states[k + 1].bits, a)
  {
    ReleaseInBounds(n, r, k, c);
  }

  // ------------------------------------------------------------- the order

  /** A guest session that waits has come this way, one successful call after another:
      its address won, Docker reached, the eth42 address added, then the container
      created and only then started, inspected, and its rule and its peer added. */
  lemma {:induction false} InstallOrder(n: nat, r: Run, k: nat, c: nat, a: nat)
    returns (take: nat, connect: nat, eth: nat, create: nat, start: nat, inspect: nat, rule: nat, peer: nat)
    requires IsRun(n, r) && At(r, k, c, Session(Some(a), Waiting))
    ensures take < connect < eth < create < start < inspect < rule < peer < k
    ensures TakesAt(r, take, c, a)
    ensures Succeeds(r, connect, c, Some(a), Spawned)
    ensures Succeeds(r, eth, c, Some(a), AddingEth)
    ensures Succeeds(r, create, c, Some(a), CreatingContainer)
    ensures Succeeds(r, start, c, Some(a), StartingContainer)
    ensures Succeeds(r, inspect, c, Some(a), Inspecting)
    ensures Succeeds(r, rule, c, Some(a), AddingRule)
    ensures Succeeds(r, peer, c, Some(a), AddingPeer)
    ensures r.states[eth].net.eth[a] == 0 && r.states[eth + 1].net.eth[a] == 1
    ensures c !in r.states[start].running && c in r.states[start + 1].running
    ensures r.states[rule].net.rules[a] == 0 && r.states[rule + 1].net.rules[a] == 1
    ensures r.states[peer].net.peers[a] == 0 && r.states[peer + 1].net.peers[a] == 1
  {
    peer := CameFrom(n, r, k, c, Some(a), AddingPeer);
    rule := CameFrom(n, r, peer, c, Some(a), AddingRule);
    inspect := CameFrom(n, r, rule, c, Some(a), Inspecting);
    start := CameFrom(n, r, inspect, c, Some(a), StartingContainer);
    take, connect, eth, create := PrepareOrder(n, r, start, c, a);
    Started(n, r, start, c, Some(a));
    RuleAdded(n, r, rule, c, a);
    PeerAdded(n, r, peer, c, a);
  }

  lemma {:induction false} PrepareOrder(n: nat, r: Run, start: nat, c: nat, a: nat)
    returns (take: nat, connect: nat, eth: nat, create: nat)
    requires IsRun(n, r) && At(r, start, c, Session(Some(a), StartingContainer))
    ensures take < connect < eth < create < start
    ensures TakesAt(r, take, c, a)
    ensures Succeeds(r, connect, c, Some(a), Spawned)
    ensures Succeeds(r, eth, c, Some(a), AddingEth)
    ensures Succeeds(r, create, c, Some(a), CreatingContainer)
    ensures r.states[eth].net.eth[a] == 0 && r.states[eth + 1].net.eth[a] == 1
  {
    create := CameFrom(n, r, start, c, Some(a), CreatingContainer);
    eth := CameFrom(n, r, create, c, Some(a), AddingEth);
    connect := CameFrom(n, r, eth, c, Some(a), Spawned);
    take := EveryHolderTook(n, r, connect, c, a);
    EthAdded(n, r, eth, c, a);
  }

  /** A demo that waits: reached Docker, created its container, started it. */
  lemma {:induction false} DemoOrder(n: nat, r: Run, k: nat, c: nat)
    returns (connect: nat, create: nat, start: nat)
    requires IsRun(n, r) && At(r, k, c, Session(None, Waiting))
    ensures connect < create < start < k
    ensures Succeeds(r, connect, c, None, Spawned)
    ensures Succeeds(r, create, c, None, CreatingContainer)
    ensures Succeeds(r, start, c, None, StartingContainer)
    ensures c !in r.states[start].running && c in r.states[start + 1].running
  {
    start := CameFrom(n, r, k, c, None, StartingContainer);
    create := CameFrom(n, r, start, c, None, CreatingContainer);
    connect := CameFrom(n, r, create, c, None, Spawned);
    Started(n, r, start, c, None);
  }

  /** A finished guest session waited, woke, removed its peer, reached Docker, attempted
      its stop, deleted its rule and its address and cleared its bit, in that order. */
  lemma {:induction false} TeardownOrder(n: nat, r: Run, k: nat, c: nat, a: nat)
    returns (wake: nat, peer: nat, connect: nat, stop: nat, rule: nat, eth: nat, bit: nat)
    requires IsRun(n, r) && At(r, k, c, Session(Some(a), Finished))
    ensures wake < peer < connect < stop < rule < eth < bit < k
    ensures At(r, wake, c, Session(Some(a), Waiting)) && r.events[wake].Wake? && r.events[wake].c == c
    ensures Succeeds(r, peer, c, Some(a), RemovingPeer)
    ensures Succeeds(r, connect, c, Some(a), Connecting)
    ensures At(r, stop, c, Session(Some(a), Stopping)) && r.events[stop].Stop? && r.events[stop].c == c
    ensures Succeeds(r, rule, c, Some(a), DeletingRule)
    ensures Succeeds(r, eth, c, Some(a), DeletingEth)
    ensures At(r, bit, c, Session(Some(a), Relinquishing)) && r.events[bit] == Release(c)
    ensures r.states[peer].net.peers[a] == 1 && r.states[peer + 1].net.peers[a] == 0
    ensures r.states[rule].net.rules[a] == 1 && r.states[rule + 1].net.rules[a] == 0
    ensures r.states[eth].net.eth[a] == 1 && r.states[eth + 1].net.eth[a] == 0
    ensures InUse(r.states[bit].bits, a) && !InUse(r.states[bit + 1].bits, a)
  {
    bit := CameFrom(n, r, k, c, Some(a), Relinquishing);
    eth := CameFrom(n, r, bit, c, Some(a), DeletingEth);
    rule := CameFrom(n, r, eth, c, Some(a), DeletingRule);
    stop := CameFrom(n, r, rule, c, Some(a), Stopping);
    wake, peer, connect := WindDown(n, r, stop, c, a);
    RuleRemoved(n, r, rule, c, a);
    EthRemoved(n, r, eth, c, a);
    Released(n, r, bit, c, a);
  }

  lemma {:induction false} WindDown(n: nat, r: Run, stop: nat, c: nat, a: nat)
    returns (wake: nat, peer: nat, connect: nat)
    requires IsRun(n, r) && At(r, stop, c, Session(Some(a), Stopping))
    ensures wake < peer < connect < stop
    ensures At(r, wake, c, Session(Some(a), Waiting)) && r.events[wake].Wake? && r.events[wake].c == c
    ensures Succeeds(r, peer, c, Some(a), RemovingPeer)
    ensures Succeeds(r, connect, c, Some(a), Connecting)
    ensures r.states[peer].net.peers[a] == 1 && r.states[peer + 1].net.peers[a] == 0
  {
    connect := CameFrom(n, r, stop, c, Some(a), Connecting);
    peer := CameFrom(n, r, connect, c, Some(a), RemovingPeer);
    wake := CameFrom(n, r, peer, c, Some(a), Waiting);
    PeerRemoved(n, r, peer, c, a);
  }

  /** A finished demo waited, woke, reached Docker and attempted its stop. */
  lemma {:induction false} DemoTeardown(n: nat, r: Run, k: nat, c: nat)
    returns (wake: nat, connect: nat, stop: nat)
    requires IsRun(n, r) && At(r, k, c, Session(None, Finished))
    ensures wake < connect < stop < k
    ensures At(r, wake, c, Session(None, Waiting)) && r.events[wake].Wake? && r.events[wake].c == c
    ensures Succeeds(r, connect, c, None, Connecting)
    ensures At(r, stop, c, Session(None, Stopping)) && r.events[stop].Stop? && r.events[stop].c == c
  {
    stop := CameFrom(n, r, k, c, None, Stopping);
    connect := CameFrom(n, r, stop, c, None, Connecting);
    wake := CameFrom(n, r, connect, c, None, Waiting);
  }

  // ------------------------------------------------------------- the address a container binds

  /** As long as a guest's container runs and its session has not deleted the eth42
      address, that address is installed, once: Docker's bindings have it to listen on. */
  lemma {:induction false} EthWhileRunning(n: nat, r: Run, k: nat, c: nat, a: nat)
    requires IsRun(n, r) && k < |r.states| && c < |r.states[k].conns| && c in r.states[k].running
    requires var p := r.states[k].conns[c].phase;
             || (p.Session? && p.session == Some(a) && p.stage != Relinquishing && p.stage != Finished)
             || (p.Dead? && p.session == Some(a) && p.stage != DeletingEth)
    ensures r.states[k].net.eth[a] == 1
  {
    RunningMeansStarted(n, r, k, c);
    InstalledByOwner(n, r, k, c, a);
    RunInv(n, r, k);
    assert WellShaped(n, r.states[k].conns[c].phase);
  }
}
