/** When `main` resumes: the closed tracker was seen empty before, but a handler that was
    accepted earlier can spawn its session in between. What that can leave behind, and
    when it cannot. */
module LifecycleReturn {
  import opened Lifecycle
  import opened LifecycleInvariant
  import opened LifecycleTheorems
  import opened LifecycleHistory
  import opened LifecycleShutdown
  import opened LifecycleCustody

  // ------------------------------------------------------------- what comes late

  lemma DrainStep(s: State, e: Event)
    requires Enabled(s, e) && Apply(s, e).drained && !s.drained
    ensures e == Drained
  {
  }

  /** `tracker.wait` returns only after the tracker was seen empty. */
  lemma {:induction false} DrainedBefore(n: nat, r: Run, k: nat) returns (d: nat)
    requires IsRun(n, r) && k < |r.states| && r.states[k].drained
    ensures d < k && r.events[d] == Drained && TrackerEmpty(r.states[d]) && r.states[d].cancelled
  {
    d := k - 1;
    if r.states[d].drained {
      d := DrainedBefore(n, r, d);
    } else {
      DrainStep(r.states[d], r.events[d]);
    }
  }

  /** A handler: accepted, not refused, not yet spawned. */
  predicate IsHandler(p: Phase) {
    p.Reading? || p.Scanning? || p.Taken? || p.DemoReady?
  }

  lemma TrackedStep(s: State, e: Event, c: nat)
    requires Enabled(s, e) && c < |Apply(s, e).conns| && Tracked(Apply(s, e).conns[c].phase)
    ensures c < |s.conns| && (Tracked(s.conns[c].phase) || IsHandler(s.conns[c].phase))
  {
    if OfConn(e) && e.c != c {
      OneConnSteps(s, e);
    }
  }

  lemma HandlerStep(s: State, e: Event, c: nat)
    requires Enabled(s, e) && c < |Apply(s, e).conns| && IsHandler(Apply(s, e).conns[c].phase) && s.cancelled
    ensures c < |s.conns| && IsHandler(s.conns[c].phase)
  {
    if OfConn(e) && e.c != c {
      OneConnSteps(s, e);
    }
  }

  lemma HandlerBack(r: Run, k: nat, c: nat)
    requires IsPath(r) && 0 < k < |r.states| && r.states[k - 1].cancelled && WasHandler(r, k, c)
    ensures WasHandler(r, k - 1, c)
  {
    HandlerStep(r.states[k - 1], r.events[k - 1], c);
  }

  lemma TrackedBack(r: Run, k: nat, c: nat)
    requires IsPath(r) && 0 < k < |r.states| && WasTracked(r, k, c)
    ensures WasTracked(r, k - 1, c) || WasHandler(r, k - 1, c)
  {
    TrackedStep(r.states[k - 1], r.events[k - 1], c);
  }

  /** Handlers after cancellation were handlers all along. */
  lemma {:induction false} HandlerWas(n: nat, r: Run, d: nat, k: nat, c: nat)
    requires IsRun(n, r) && d <= k < |r.states| && r.states[d].cancelled && WasHandler(r, k, c)
    ensures WasHandler(r, d, c)
    decreases k
  {
    if d < k {
      StaysCancelled(n, r, d, k - 1);
      HandlerBack(r, k, c);
      HandlerWas(n, r, d, k - 1, c);
    }
  }

  ghost predicate WasTracked(r: Run, d: nat, c: nat) {
    d < |r.states| && c < |r.states[d].conns| && Tracked(r.states[d].conns[c].phase)
  }

  /** Going back to a moment after cancellation, a tracked task was tracked or a
      handler. */
  lemma {:induction false} TrackedWas(n: nat, r: Run, d: nat, k: nat, c: nat)
    requires IsRun(n, r) && d <= k < |r.states| && r.states[d].cancelled
    requires WasTracked(r, k, c)
    ensures WasTracked(r, d, c) || WasHandler(r, d, c)
    decreases k
  {
    if d < k {
      TrackedBack(r, k, c);
      if WasHandler(r, k - 1, c) {
        HandlerWas(n, r, d, k - 1, c);
      } else {
        TrackedWas(n, r, d, k - 1, c);
      }
    }
  }

  /** When `main` resumes, the tracker had been empty at some moment `d`; whatever is
      installed by then belongs to a task that died or to a connection that was still
      an unspawned handler at `d`. Such late sessions are all that can be left. */
  lemma {:induction false} LeftAtReturn(n: nat, r: Run, k: nat) returns (d: nat)
    requires IsRun(n, r) && k < |r.states| && r.states[k].ended
    ensures d < k && r.events[d] == Drained && TrackerEmpty(r.states[d])
    ensures forall c: nat :: c < |r.states[k].conns| && Tracked(r.states[k].conns[c].phase) ==> WasHandler(r, d, c)
    ensures forall a: nat :: Empty(r.states[k].net, a) || DeadOwner(r.states[k], a) || LateOwner(r, d, k, a)
  {
    assert Enabled(r.states[k - 1], r.events[k - 1]);
    d := DrainedBefore(n, r, k - 1);
    forall c: nat | c < |r.states[k].conns| && Tracked(r.states[k].conns[c].phase)
      ensures WasHandler(r, d, c)
    {
      TrackedWas(n, r, d, k, c);
    }
    forall a: nat
      ensures Empty(r.states[k].net, a) || DeadOwner(r.states[k], a) || LateOwner(r, d, k, a)
    {
      if !Empty(r.states[k].net, a) {
        var c := InstalledHasOwner(n, r, k, a);
      }
    }
  }

  ghost predicate WasHandler(r: Run, d: nat, c: nat) {
    d < |r.states| && c < |r.states[d].conns| && IsHandler(r.states[d].conns[c].phase)
  }

  /** A session spawned since moment `d` owns the address. */
  ghost predicate LateOwner(r: Run, d: nat, k: nat, a: nat) {
    && k < |r.states|
    && exists c: nat :: c < |r.states[k].conns| && Tracked(r.states[k].conns[c].phase)
         && Owns(r.states[k].conns[c].phase, a) && WasHandler(r, d, c)
  }

  // ------------------------------------------------------------- a clean return

  /** Every task is done, every bit clear and nothing installed. */
  ghost predicate Clean(s: State) {
    && TrackerEmpty(s)
    && s.net == Net(multiset{}, multiset{}, multiset{})
    && forall a: nat :: !InUse(s.bits, a)
  }

  /** Neither a session nor a handler with an address. */
  predicate Settled(p: Phase) {
    !Tracked(p) && !p.Taken?
  }

  lemma {:induction false} SettledMeansClean(n: nat, r: Run, k: nat)
    requires IsRun(n, r) && NoFailures(r, k)
    ensures Clean(r.states[k]) <==> forall c: nat :: c < |r.states[k].conns| ==> Settled(r.states[k].conns[c].phase)
  {
    var s := r.states[k];
    if TrackerEmpty(s) {
      CleanWhenEmpty(n, r, k);
      forall c: nat | c < |s.conns| && s.conns[c].phase.Taken?
        ensures HandlerHolds(s, s.conns[c].phase.addr)
      {
      }
    }
  }

  // ------------------------------------------------------------- hopeless handlers

  /** Nothing will come of this connection: it is finished or refused, it has probed
      every slot in vain, or its bytes are going to be refused. Bytes that ask for an
      address are, too, if there are no slots. */
  predicate Hopeless(n: nat, conn: Conn) {
    match if conn.phase.Reading? then ParsedPhase(conn.input) else conn.phase
    case Closed(_) => true
    case Session(_, st) => st == Finished
    case Scanning(i) => i >= n
    case _ => false
  }

  ghost predicate AllHopeless(n: nat, s: State) {
    forall c: nat :: c < |s.conns| ==> Hopeless(n, s.conns[c])
  }

  lemma OwnHopeless(s: State, e: Event)
    requires Enabled(s, e) && OfConn(e) && e.c < |s.conns| == |Apply(s, e).conns|
    requires Hopeless(|s.bits|, s.conns[e.c])
    ensures Hopeless(|s.bits|, Apply(s, e).conns[e.c])
  {
  }

  lemma StepHopeless(s: State, e: Event)
    requires Enabled(s, e) && s.cancelled && AllHopeless(|s.bits|, s)
    ensures AllHopeless(|s.bits|, Apply(s, e))
  {
    if OfConn(e) {
      OneConnSteps(s, e);
      OwnHopeless(s, e);
    }
  }

  lemma {:induction false} StaysHopeless(n: nat, r: Run, d: nat, k: nat)
    requires IsRun(n, r) && d <= k < |r.states| && r.states[d].cancelled && AllHopeless(n, r.states[d])
    ensures AllHopeless(n, r.states[k])
    decreases k
  {
    if d < k {
      StaysHopeless(n, r, d, k - 1);
      StaysCancelled(n, r, d, k - 1);
      RunInv(n, r, k - 1);
      StepHopeless(r.states[k - 1], r.events[k - 1]);
    }
  }

  /** Every container built in the run has had its id taken by one shutdown. */
  ghost predicate AllShutDown(r: Run) {
    |r.states| == |r.events| + 1 && forall c: nat :: ShutDown(r, |r.events|, c)
  }

  ghost predicate ShutDown(r: Run, k: nat, c: nat)
    requires k < |r.states| && |r.states| == |r.events| + 1
  {
    Times(TakesId, r, c, k) == Times(Builds, r, c, k)
  }

  /** Hopeless connections at one moment after cancellation mean that everything is
      clean, and every container shut down, from then on. */
  lemma {:induction false} CleanIfHopeless(n: nat, r: Run, d: nat, k: nat)
    requires IsRun(n, r) && NoFailures(r, k) && d <= k && r.states[d].cancelled && AllHopeless(n, r.states[d])
    ensures Clean(r.states[k]) && forall c: nat :: ShutDown(r, k, c)
  {
    StaysHopeless(n, r, d, k);
    assert forall c: nat :: c < |r.states[k].conns| ==> Hopeless(n, r.states[k].conns[c]);
    SettledMeansClean(n, r, k);
    forall c: nat
      ensures ShutDown(r, k, c)
    {
      EveryContainerShutDown(n, r, c, k);
    }
  }

  // ------------------------------------------------------------- and the others

  /** The connection is free to go on until it has built a container. */
  predicate Hopeful(s: State, conn: Conn) {
    match if conn.phase.Reading? then ParsedPhase(conn.input) else conn.phase
    case Scanning(i) => i < |s.bits| && !s.bits[i]
    case Taken(_) => true
    case DemoReady => true
    case Session(addr, st) => Unbuilt(st) && (addr.None? ==> !GuestOnly(st))
    case _ => false
  }

  function Onward(c: nat, p: Phase): Event {
    match p
    case Reading => Parse(c)
    case Scanning(_) => Probe(c)
    case Session(_, _) => Call(c, true, true)
    case _ => Spawn(c)
  }

  function StepsLeft(p: Phase): nat {
    match p
    case Reading => 17
    case Scanning(_) => 16
    case Session(_, st) => Rank(Finished) - Rank(st)
    case _ => 15
  }

  ghost predicate Live(s: State, c: nat) {
    !s.ended && !s.aborted && s.drained && c < |s.conns|
  }

  lemma OnwardStep(s: State, c: nat)
    requires Live(s, c) && Hopeful(s, s.conns[c])
    ensures var e := Onward(c, s.conns[c].phase);
            && Enabled(s, e) && (e.Call? ==> e.ok)
            && var s' := Apply(s, e);
               && Live(s', c)
               && (Hopeful(s', s'.conns[c]) || CustodyOf(s'.conns[c].phase) == Holding)
               && StepsLeft(s'.conns[c].phase) < StepsLeft(s.conns[c].phase)
  {
  }

  /** A hopeful connection can go on, no call failing, until it holds a container. */
  lemma {:induction false} ComesToHold(s: State, c: nat) returns (r: Run)
    requires Live(s, c) && Hopeful(s, s.conns[c])
    ensures GoesWell(r) && r.states[0] == s && Live(Last(r), c) && CustodyOf(Last(r).conns[c].phase) == Holding
    decreases StepsLeft(s.conns[c].phase)
  {
    var e := Onward(c, s.conns[c].phase);
    OnwardStep(s, c);
    var s' := Apply(s, e);
    var step := Run([s, s'], [e]);
    if Hopeful(s', s'.conns[c]) {
      var rest := ComesToHold(s', c);
      ChainGoesWell(step, rest);
      r := Chain(step, rest);
    } else {
      r := step;
    }
  }

  /** While nothing but handlers holds addresses, one that is not hopeless, or one it
      would collide with, is hopeful. */
  lemma {:induction false} SomeoneHopeful(n: nat, r: Run, k: nat, c: nat) returns (h: nat)
    requires IsRun(n, r) && NoFailures(r, k) && TrackerEmpty(r.states[k])
    requires c < |r.states[k].conns| && !Hopeless(n, r.states[k].conns[c])
    ensures h < |r.states[k].conns| && Hopeful(r.states[k], r.states[k].conns[h])
  {
    var s := r.states[k];
    h := c;
    NobodyDies(n, r, k);
    RunInv(n, r, k);
    CleanWhenEmpty(n, r, k);
    if !Hopeful(s, s.conns[c]) {
      var p := if s.conns[c].phase.Reading? then ParsedPhase(s.conns[c].input) else s.conns[c].phase;
      assert InUse(s.bits, p.next + 1);
      h :| 0 <= h < |s.conns| && s.conns[h].phase == Taken(p.next + 1);
    }
  }

  // ------------------------------------------------------------- the exact condition

  /** A run that goes on from `r` without failures until `main` resumes. */
  ghost predicate ReturnsFrom(n: nat, r: Run, q: Run) {
    && IsRun(n, q) && GoesWell(q) && Last(q).ended
    && r.states <= q.states && r.events <= q.events
  }

  /** Main resumes around a container that somebody holds. */
  lemma {:induction false} UncleanReturn(n: nat, r: Run, c: nat) returns (q: Run)
    requires IsRun(n, r) && GoesWell(r) && Live(Last(r), c) && Hopeful(Last(r), Last(r).conns[c])
    ensures ReturnsFrom(n, r, q) && !Clean(Last(q)) && !AllShutDown(q)
  {
    var hold := ComesToHold(Last(r), c);
    ChainGoesWell(r, hold);
    var p := Chain(r, hold);
    var end := Apply(Last(p), WaitReturns);
    Extend(p, Last(p), WaitReturns);
    q := Run(p.states + [end], p.events + [WaitReturns]);
    assert Tracked(end.conns[c].phase);
    IdConserved(n, q, c, |q.events|);
    assert !ShutDown(q, |q.events|, c);
  }

  /** The tracker has just been seen empty after a run without failures. Every way to go
      on to the return of `tracker.wait` without failures ends with everything clean,
      and just so with every container shut down, if and only if the connections that
      have not finished are all hopeless by now. */
  lemma {:induction false} CleanReturn(n: nat, r: Run)
    requires IsRun(n, r) && GoesWell(r) && r.events != [] && r.events[|r.events| - 1] == Drained
    ensures AllHopeless(n, Last(r)) <==> forall q: Run :: ReturnsFrom(n, r, q) ==> Clean(Last(q))
    ensures AllHopeless(n, Last(r)) <==> forall q: Run :: ReturnsFrom(n, r, q) ==> AllShutDown(q)
  {
    var d := |r.events|;
    assert Enabled(r.states[d - 1], r.events[d - 1]);
    if AllHopeless(n, Last(r)) {
      forall q: Run | ReturnsFrom(n, r, q)
        ensures Clean(Last(q)) && AllShutDown(q)
      {
        assert q.states[d] == Last(r);
        CleanIfHopeless(n, q, d, |q.events|);
      }
    } else {
      var c: nat :| c < |Last(r).conns| && !Hopeless(n, Last(r).conns[c]);
      var h := SomeoneHopeful(n, r, d, c);
      var q := UncleanReturn(n, r, h);
    }
  }
}
