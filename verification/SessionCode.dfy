/** The body of a tracked session task, in program order, against a daemon whose other
    tasks may take any steps between its calls and whose commands may fail with or
    without effect. Every execution, whatever fails and whoever interferes, is proved
    to be a path of the transition system that ends where the task finished, died or
    aborted the daemon. */
module SessionCode {
  import opened Basics
  import opened Lifecycle
  import opened LifecycleTheorems
  import opened LifecycleHistory
  import opened LifecycleCustody

  /** The `Container` value: its id until `shutdown` takes it. */
  class Container {
    var id: Option<nat>
    const vpnAddr: Option<nat>

    constructor (id: nat, vpnAddr: Option<nat>)
      ensures this.id == Some(id) && this.vpnAddr == vpnAddr
    {
      this.id := Some(id);
      this.vpnAddr := vpnAddr;
    }
  }

  /** A step of anyone but connection `c`; its container may exit by itself. */
  predicate Foreign(c: nat, e: Event) {
    OfConn(e) ==> e.c != c
  }

  /** Such a step leaves the connection and the number of slots as they are. */
  lemma ForeignStep(s: State, c: nat, e: Event)
    requires c < |s.conns| && Enabled(s, e) && Foreign(c, e)
    ensures c < |Apply(s, e).conns| && Apply(s, e).conns[c] == s.conns[c]
    ensures |Apply(s, e).bits| == |s.bits|
  {
    StepKeepsSize(s, e);
    OthersStay(s, e, c);
  }

  /** What a call of this stage leaves behind. */
  lemma OwnCall(s: State, c: nat, ok: bool, effect: bool)
    requires Enabled(s, Call(c, ok, effect))
    ensures var s' := Apply(s, Call(c, ok, effect));
            var Session(addr, st) := s.conns[c].phase;
            && c < |s'.conns| && s'.conns[c].phase == AfterCall(addr, st, ok, effect)
            && s'.bits == s.bits
            && !s'.ended
            && (s'.aborted <==> !ok && st == Connecting)
  {
  }

  /** The task of connection `c` within the daemon. */
  class Task {
    const c: nat
    const addr: Option<nat>
    var world: State
    ghost const start: State
    ghost var run: Run

    /** The path so far leads from the start to the present. */
    ghost predicate Synced()
      reads this
    {
      && IsPath(run)
      && run.states[0] == start
      && run.states[|run.events|] == world
      && c < |world.conns|
    }

    /** The task is alive and about to make the call of stage `st`. */
    ghost predicate About(st: Stage)
      reads this
    {
      && Synced()
      && !world.ended && !world.aborted
      && world.conns[c].phase == Session(addr, st)
      && (addr.Some? ==> 1 <= addr.value <= |world.bits|)
    }

    /** The task panicked; only the connect in `shutdown` takes the daemon with it. */
    ghost predicate DiedAt(st: Stage)
      reads this
    {
      && Synced()
      && world.conns[c].phase.Dead?
      && world.conns[c].phase.stage == st
      && (world.aborted <==> st == Connecting)
    }

    /** The task died, leaving the container in the given custody. */
    ghost predicate DiedWith(x: Custody)
      reads this
    {
      && Synced()
      && world.conns[c].phase.Dead?
      && DiedAt(world.conns[c].phase.stage)
      && CustodyOf(world.conns[c].phase) == x
    }

    constructor (c: nat, addr: Option<nat>, s: State)
      requires !s.ended && !s.aborted && c < |s.conns| && s.conns[c].phase == Session(addr, Spawned)
      requires addr.Some? ==> 1 <= addr.value <= |s.bits|
      ensures About(Spawned) && this.c == c && this.addr == addr && start == s
    {
      this.c, this.addr, world, start := c, addr, s, s;
      run := Run([s], []);
    }

    // ------------------------------------------------------------- steps

    /** One step of the daemon. */
    method Step(e: Event)
      requires Synced() && Enabled(world, e) && c < |Apply(world, e).conns|
      modifies this
      ensures Synced() && world == Apply(old(world), e)
    {
      Extend(run, world, e);
      world := Apply(world, e);
      run := Run(run.states + [world], run.events + [e]);
    }

    /** Any number of steps of anyone else, short of ending the process: an execution
        cut off by that end is the beginning of one that is not. */
    method Interfere(ghost st: Stage)
      requires About(st)
      modifies this
      ensures About(st)
    {
      var steps :| 0 <= steps;
      for i := 0 to steps
        invariant About(st)
      {
        var e: Event := *;
        if Foreign(c, e) && Enabled(world, e) {
          ForeignStep(world, c, e);
          var next := Apply(world, e);
          if !next.ended && !next.aborted {
            Step(e);
          }
        }
      }
    }

    // ------------------------------------------------------------- commands

    /** The call of stage `st`: it may fail, and it may have acted even so. */
    method Command(ghost st: Stage) returns (ok: bool)
      requires About(st) && Fallible(st)
      modifies this
      ensures if ok then About(Next(addr.Some?, st)) else DiedAt(st)
    {
      Interfere(st);
      ok := *;
      var effect := *;
      OwnCall(world, c, ok, ok || effect);
      Step(Call(c, ok, ok || effect));
    }

    /** The select of both supervisors; which branch wakes first is open. */
    method Wait()
      requires About(Waiting)
      modifies this
      ensures About(if addr.Some? then RemovingPeer else Connecting)
    {
      Interfere(Waiting);
      var reason: WakeReason := *;
      if reason == Cancelled && !world.cancelled {
        reason := Timer;
      }
      Step(Wake(c, reason));
    }

    /** The stop request: every error is survived. */
    method StopContainer()
      requires About(Stopping)
      modifies this
      ensures About(if addr.Some? then DeletingRule else Finished)
    {
      Interfere(Stopping);
      var outcome: StopOutcome := *;
      if outcome.StopGone? && c in world.running {
        outcome := StopOk;
      }
      var killed := *;
      Step(Stop(c, outcome, outcome.StopOk? || killed));
    }

    method RelinquishAddr(a: nat)
      requires addr == Some(a) && About(Relinquishing)
      modifies this
      ensures About(Finished)
      ensures world.bits[a - 1] == false
    {
      Interfere(Relinquishing);
      Step(Release(c));
    }

    // ------------------------------------------------------------- the program

    /** `Container::create` up to the eth42 address. */
    method Prepare() returns (ok: bool)
      requires About(Spawned)
      modifies this
      ensures if ok then About(CreatingContainer) else DiedWith(NotBuilt)
    {
      ok := Command(Spawned);
      if ok && addr.Some? {
        ok := Command(AddingEth);
      }
    }

    method Boot() returns (ok: bool)
      requires About(CreatingContainer)
      modifies this
      ensures if ok then About(if addr.Some? then Inspecting else Waiting) else DiedWith(NotBuilt)
    {
      ok := Command(CreatingContainer);
      if ok {
        ok := Command(StartingContainer);
      }
    }

    /** The guest's half of `Container::create` after the start: the DNAT rule. */
    method Publish(a: nat) returns (ok: bool)
      requires addr == Some(a) && About(Inspecting)
      modifies this
      ensures if ok then About(AddingPeer) else DiedWith(NotBuilt)
    {
      ok := Command(Inspecting);
      if ok {
        ok := Command(AddingRule);
      }
    }

    /** `Container::create`. */
    method Create() returns (container: Container?)
      requires About(Spawned)
      modifies this
      ensures container == null ==> DiedWith(NotBuilt)
      ensures container != null ==>
                && fresh(container) && container.id.Some? && container.vpnAddr == addr
                && About(if addr.Some? then AddingPeer else Waiting)
    {
      container := null;
      var ok := Prepare();
      if ok { ok := Boot(); }
      if ok && addr.Some? { ok := Publish(addr.value); }
      if ok { container := new Container(c, addr); }
    }

    /** The end of `Container::shutdown` for a guest: the rule, then the address. */
    method Unpublish(a: nat) returns (ok: bool)
      requires addr == Some(a) && About(DeletingRule)
      modifies this
      ensures if ok then About(Relinquishing) else DiedWith(Handed)
    {
      ok := Command(DeletingRule);
      if ok {
        ok := Command(DeletingEth);
      }
    }

    /** The connect and the stop request of `Container::shutdown`, with the id taken
        in between. */
    method Halt(container: Container) returns (ok: bool)
      requires About(Connecting) && container.id.Some?
      modifies this, container
      ensures ok ==> container.id.None? && About(if addr.Some? then DeletingRule else Finished)
      ensures !ok ==> container.id.Some? && DiedWith(Dropped)
    {
      ok := Command(Connecting);
      if ok {
        container.id := None;
        StopContainer();
      }
    }

    /** The cleanup closure: `Container::shutdown`, then the address. */
    method Cleanup(container: Container)
      requires About(Connecting) && container.id.Some? && container.vpnAddr == addr
      modifies this, container
      ensures (About(Finished) && container.id.None?) || DiedWith(if container.id.Some? then Dropped else Handed)
    {
      var ok := Halt(container);
      if ok && container.vpnAddr.Some? {
        ok := Unpublish(container.vpnAddr.value);
        if ok {
          RelinquishAddr(container.vpnAddr.value);
        }
      }
    }

    /** The supervisor of a guest: wait, then remove the peer. */
    method Supervise(a: nat) returns (ok: bool)
      requires addr == Some(a) && About(Waiting)
      modifies this
      ensures if ok then About(Connecting) else DiedWith(Dropped)
    {
      Wait();
      ok := Command(RemovingPeer);
    }

    /** `add_temp_peer` and its supervisor, up to the cleanup. */
    method AddTempPeer(a: nat) returns (ok: bool)
      requires addr == Some(a) && About(AddingPeer)
      modifies this
      ensures if ok then About(Connecting) else DiedWith(Dropped)
    {
      ok := Command(AddingPeer);
      if ok {
        ok := Supervise(a);
      }
    }

    /** The whole task. However its calls turn out and whatever the others do, it took
        a path of the transition system from where it started to its own end, and its
        `Container` still has its id, so that `drop` panics, exactly when the path
        says it was dropped. */
    method Execute() returns (container: Container?)
      requires About(Spawned)
      modifies this
      ensures IsPath(run) && run.states[0] == start && run.states[|run.events|] == world
      ensures container == null ==> DiedWith(NotBuilt)
      ensures container != null && container.id.Some? ==> DiedWith(Dropped)
      ensures container != null && container.id.None? ==> About(Finished) || DiedWith(Handed)
    {
      container := Create();
      if container == null { return; }
      if addr.Some? {
        var ok := AddTempPeer(addr.value);
        if !ok { return; }
      } else {
        Wait();
      }
      Cleanup(container);
    }
  }
}
