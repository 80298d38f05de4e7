/** Graceful shutdown: after the cancel token fires the tracker drains, and what is
    left behind is accounted for. */
module LifecycleShutdown {
  import opened Basics
  import opened Lifecycle
  import opened LifecycleInvariant
  import opened LifecycleTheorems
  import opened LifecycleHistory

  // ------------------------------------------------------------- the measure

  /** How many more steps a connection can take, doubled so that a container's own
      exit can be paid for by its start. */
  function Weight(n: nat, conn: Conn): nat {
    match conn.phase
    case Reading => 2 * n + 40
    case Scanning(i) => if i <= n then 2 * (n - i) + 36 else 0
    case Taken(_) => 34
    case DemoReady => 34
    case Session(_, st) => 2 * (Rank(Finished) - Rank(st))
    case _ => 0
  }

  function WeightOf(n: nat): Conn -> nat {
    conn => Weight(n, conn)
  }

  ghost function Measure(s: State): nat {
    SumOf(WeightOf(|s.bits|), s.conns) + |s.running| + Count(!s.drained) + Count(!s.ended)
  }

  lemma NextRank(guest: bool, st: Stage)
    requires st != Finished
    ensures Rank(st) < Rank(Next(guest, st))
  {
  }

  lemma RankTop(st: Stage)
    ensures Rank(st) <= Rank(Finished)
  {
  }

  lemma HandlerWeightDrops(s: State, e: Event)
    requires Enabled(s, e) && OfConn(e) && e.c < |s.conns| == |Apply(s, e).conns|
    requires WellShaped(|s.bits|, s.conns[e.c].phase) && !s.conns[e.c].phase.Session?
    ensures Weight(|s.bits|, Apply(s, e).conns[e.c]) + 2 <= Weight(|s.bits|, s.conns[e.c])
  {
  }

  lemma SessionWeightDrops(s: State, e: Event)
    requires Enabled(s, e) && OfConn(e) && e.c < |s.conns| == |Apply(s, e).conns|
    requires s.conns[e.c].phase.Session?
    ensures Weight(|s.bits|, Apply(s, e).conns[e.c]) + 2 <= Weight(|s.bits|, s.conns[e.c])
  {
    var p := s.conns[e.c].phase;
    NextRank(p.session.Some?, p.stage);
    RankTop(Next(p.session.Some?, p.stage));
  }

  lemma ConnWeightDrops(s: State, e: Event)
    requires Enabled(s, e) && OfConn(e) && e.c < |s.conns| == |Apply(s, e).conns|
    requires WellShaped(|s.bits|, s.conns[e.c].phase)
    ensures Weight(|s.bits|, Apply(s, e).conns[e.c]) + 2 <= Weight(|s.bits|, s.conns[e.c])
  {
    if s.conns[e.c].phase.Session? {
      SessionWeightDrops(s, e);
    } else {
      HandlerWeightDrops(s, e);
    }
  }

  lemma RunningGrowth(s: State, e: Event)
    requires Enabled(s, e)
    ensures |Apply(s, e).running| <= |s.running| + if e.ContainerExit? then -1 else if e.Call? then 1 else 0
  {
    var s' := Apply(s, e);
    if e.Call? {
      assert s'.running <= s.running + {e.c};
      SubsetSize(s'.running, s.running + {e.c});
    } else if e.Stop? {
      SubsetSize(s'.running, s.running);
    }
  }

  lemma {:induction false} SubsetSize<T>(a: set<T>, b: set<T>)
    requires a <= b
    ensures |a| <= |b|
    decreases b
  {
    if b != {} {
      var x :| x in b;
      SubsetSize(a - {x}, b - {x});
    }
  }

  /** After cancellation every step of anything strictly decreases the measure. */
  lemma MeasureDrops(s: State, e: Event)
    requires AllWellShaped(s) && s.cancelled && Enabled(s, e)
    ensures Measure(Apply(s, e)) < Measure(s) && Apply(s, e).cancelled
  {
    var s' := Apply(s, e);
    StepKeepsSize(s, e);
    RunningGrowth(s, e);
    if OfConn(e) {
      OneConnSteps(s, e);
      ConnWeightDrops(s, e);
      SumUpdate(WeightOf(|s.bits|), s.conns, e.c, s'.conns[e.c]);
    }
  }

  // ------------------------------------------------------------- progress

  /** The successful move of a tracked task in its current stage; a waiting one is
      woken by the token. */
  function Move(c: nat, st: Stage): Event {
    match st
    case Waiting => Wake(c, Cancelled)
    case Stopping => Stop(c, StopOk, true)
    case Relinquishing => Release(c)
    case _ => Call(c, true, true)
  }

  /** After cancellation no tracked task is ever stuck, wherever it is: creating its
      container, waiting, or tearing down. */
  lemma TrackedCanMove(s: State, c: nat)
    requires Inv(s) && s.cancelled && !s.ended && !s.aborted
    requires c < |s.conns| && Tracked(s.conns[c].phase)
    ensures Enabled(s, Move(c, s.conns[c].phase.stage))
  {
    assert WellShaped(|s.bits|, s.conns[c].phase);
    if s.conns[c].phase.stage == Relinquishing {
      assert Claims(s)[c].Held?;
      assert InUse(s.bits, Claims(s)[c].addr);
    }
  }

  /** The daemon can always go on until `tracker.wait` has returned or it aborted. */
  lemma NeverStuck(s: State) returns (e: Event)
    requires Inv(s) && s.cancelled && !s.ended && !s.aborted
    ensures Enabled(s, e)
  {
    if c: nat :| c < |s.conns| && Tracked(s.conns[c].phase) {
      TrackedCanMove(s, c);
      e := Move(c, s.conns[c].phase.stage);
    } else {
      e := if s.drained then WaitReturns else Drained;
    }
  }

  lemma {:induction false} RunDrops(n: nat, r: Run, k: nat)
    requires IsRun(n, r) && k < |r.events| && r.states[k].cancelled
    ensures Measure(r.states[k + 1]) < Measure(r.states[k]) && r.states[k + 1].cancelled
  {
    RunInv(n, r, k);
    MeasureDrops(r.states[k], r.events[k]);
  }

  lemma {:induction false} StaysCancelled(n: nat, r: Run, k: nat, j: nat)
    requires IsRun(n, r) && k <= j < |r.states| && r.states[k].cancelled
    ensures r.states[j].cancelled
    decreases j
  {
    if k < j {
      StaysCancelled(n, r, k, j - 1);
      RunDrops(n, r, j - 1);
    }
  }

  lemma {:induction false} Descent(ms: seq<nat>, k: nat, j: nat)
    requires k <= j < |ms| && forall i :: k <= i < j ==> ms[i + 1] < ms[i]
    ensures ms[j] + (j - k) <= ms[k]
    decreases j
  {
    if k < j {
      Descent(ms, k, j - 1);
      assert ms[j - 1 + 1] < ms[j - 1];
    }
  }

  ghost function Measures(r: Run): (ms: seq<nat>)
    ensures |ms| == |r.states| && forall i :: 0 <= i < |ms| ==> ms[i] == Measure(r.states[i])
  {
    seq(|r.states|, i requires 0 <= i < |r.states| => Measure(r.states[i]))
  }

  /** Once cancelled, at most `Measure` further steps can happen, in any order and
      with any failures. */
  lemma {:induction false} DrainBound(n: nat, r: Run, k: nat, j: nat)
    requires IsRun(n, r) && k <= j < |r.states| && r.states[k].cancelled
    ensures r.states[j].cancelled
    ensures Measure(r.states[j]) + (j - k) <= Measure(r.states[k])
  {
    var ms := Measures(r);
    forall i | k <= i < j
      ensures ms[i + 1] < ms[i]
    {
      StaysCancelled(n, r, k, i);
      RunDrops(n, r, i);
    }
    Descent(ms, k, j);
    StaysCancelled(n, r, k, j);
  }

  /** The tracker drains: a run that cannot be extended after cancellation is
      bounded, and has seen `tracker.wait` return if and only if no connect in a
      `shutdown` failed; otherwise that failure aborted the daemon. */
  lemma {:induction false} TrackerDrains(n: nat, r: Run, k: nat)
    requires IsRun(n, r) && k < |r.states| && r.states[k].cancelled
    requires forall e :: !Enabled(r.states[|r.events|], e)
    ensures |r.events| <= k + Measure(r.states[k])
    ensures r.states[|r.events|].ended <==> forall j: nat :: j < |r.events| ==> !FailsAt(r, j, Connecting)
    ensures r.states[|r.events|].aborted <==> !r.states[|r.events|].ended
  {
    var last := |r.events|;
    DrainBound(n, r, k, last);
    RunInv(n, r, last);
    if !r.states[last].ended && !r.states[last].aborted {
      var e := NeverStuck(r.states[last]);
    }
    if r.states[last].aborted {
      AbortHasCause(n, r, last);
    }
    if r.states[last].ended {
      assert Enabled(r.states[last - 1], r.events[last - 1]);
    }
    forall j: nat | j < last && FailsAt(r, j, Connecting)
      ensures r.states[last].aborted
    {
      FailedConnectEndsRun(n, r, j);
    }
  }

  /** Nothing happens after the connect in a `shutdown` failed. */
  lemma FailedConnectEndsRun(n: nat, r: Run, j: nat)
    requires IsRun(n, r) && FailsAt(r, j, Connecting)
    ensures j + 1 == |r.events| && r.states[j + 1].aborted
  {
    assert r.states[j + 1].aborted;
    assert j + 1 < |r.events| ==> Enabled(r.states[j + 1], r.events[j + 1]);
  }

  /** The external call made at stage `st` failed at step `j`. */
  ghost predicate FailsAt(r: Run, j: nat, st: Stage) {
    && j < |r.events| < |r.states|
    && r.events[j].Call?
    && !r.events[j].ok
    && r.events[j].c < |r.states[j].conns|
    && InSession(r.states[j].conns[r.events[j].c].phase, st)
  }

  lemma {:induction false} AbortHasCause(n: nat, r: Run, k: nat)
    requires IsRun(n, r) && k < |r.states| && r.states[k].aborted
    ensures exists j :: 0 <= j < k && FailsAt(r, j, Connecting)
  {
    assert Enabled(r.states[k - 1], r.events[k - 1]);
    assert FailsAt(r, k - 1, Connecting);
  }

  // ------------------------------------------------------------- what is left

  /** With any failures: while the tracker is empty, an address is held only by a
      handler that has not yet spawned or by a task that died, and only the latter
      has anything installed. */
  lemma {:induction false} LeftWhenEmpty(n: nat, r: Run, k: nat)
    requires IsRun(n, r) && k < |r.states| && TrackerEmpty(r.states[k])
    ensures var s := r.states[k];
            && (forall c, a: nat :: 0 <= c < |s.conns| && Owns(s.conns[c].phase, a) ==>
                  s.conns[c].phase == Taken(a) || s.conns[c].phase.Dead?)
            && (forall a: nat :: Empty(s.net, a) || DeadOwner(s, a))
  {
    var s := r.states[k];
    forall a: nat
      ensures Empty(s.net, a) || DeadOwner(s, a)
    {
      if !Empty(s.net, a) {
        var c := InstalledHasOwner(n, r, k, a);
        assert !Tracked(s.conns[c].phase);
      }
    }
  }

  ghost predicate DeadOwner(s: State, a: nat) {
    exists c :: 0 <= c < |s.conns| && s.conns[c].phase.Dead? && Owns(s.conns[c].phase, a)
  }

  lemma StepWithoutFailure(s: State, e: Event)
    requires Enabled(s, e) && (e.Call? ==> e.ok)
    requires forall c :: 0 <= c < |s.conns| ==> !s.conns[c].phase.Dead?
    ensures forall c :: 0 <= c < |Apply(s, e).conns| ==> !Apply(s, e).conns[c].phase.Dead?
    ensures !Apply(s, e).aborted
  {
    if OfConn(e) {
      OneConnSteps(s, e);
    }
  }

  lemma {:induction false} NobodyDies(n: nat, r: Run, k: nat)
    requires IsRun(n, r) && NoFailures(r, k)
    ensures forall c :: 0 <= c < |r.states[k].conns| ==> !r.states[k].conns[c].phase.Dead?
    ensures !r.states[k].aborted
  {
    if k > 0 {
      NobodyDies(n, r, k - 1);
      StepWithoutFailure(r.states[k - 1], r.events[k - 1]);
    }
  }

  lemma EmptyNet(net: Net)
    requires forall a: nat :: Empty(net, a)
    ensures net == Net(multiset{}, multiset{}, multiset{})
  {
    forall a: nat
      ensures a !in net.eth && a !in net.rules && a !in net.peers
    {
      assert Empty(net, a);
    }
  }

  /** Without failures an empty tracker means an empty network, and the only set bits
      belong to handlers that have not yet spawned on it. */
  lemma {:induction false} CleanWhenEmpty(n: nat, r: Run, k: nat)
    requires IsRun(n, r) && NoFailures(r, k) && TrackerEmpty(r.states[k])
    ensures r.states[k].net == Net(multiset{}, multiset{}, multiset{})
    ensures forall a: nat :: InUse(r.states[k].bits, a) <==> HandlerHolds(r.states[k], a)
  {
    var s := r.states[k];
    NobodyDies(n, r, k);
    LeftWhenEmpty(n, r, k);
    Ownership(n, r, k);
    assert forall a: nat :: Empty(s.net, a);
    EmptyNet(s.net);
    forall a: nat
      ensures InUse(s.bits, a) <==> HandlerHolds(s, a)
    {
      if HasOwner(s, a) {
        var c :| 0 <= c < |s.conns| && Owns(s.conns[c].phase, a);
        assert s.conns[c].phase == Taken(a);
      }
      if c :| 0 <= c < |s.conns| && s.conns[c].phase == Taken(a) {
        assert Owns(s.conns[c].phase, a);
      }
    }
  }

  ghost predicate HandlerHolds(s: State, a: nat) {
    exists c :: 0 <= c < |s.conns| && s.conns[c].phase == Taken(a)
  }
}
