/** Which containers run: from their start until they stop or exit, and beyond the stop
    exactly if that request failed without effect. */
module LifecycleContainers {
  import opened Basics
  import opened Lifecycle
  import opened LifecycleInvariant
  import opened LifecycleTheorems
  import opened LifecycleHistory

  /** The task has made the call of stage `st`, successfully unless it died there. */
  predicate Made(p: Phase, st: Stage) {
    || (p.Session? && Rank(st) < Rank(p.stage))
    || (p.Dead? && Rank(st) <= Rank(p.stage))
  }

  /** The container was started and its stop has not been attempted: the task is on its
      way between the two, or died there. */
  predicate Serving(p: Phase) {
    match p
    case Session(_, st) => st.Stopping? || BeforeStop(st)
    case Dead(_, st, effect) => BeforeStop(st) || (st == StartingContainer && effect)
    case _ => false
  }

  predicate BeforeStop(st: Stage) {
    st.Inspecting? || st.AddingRule? || st.AddingPeer? || st.Waiting? || st.RemovingPeer? || st.Connecting?
  }

  /** The stop has been attempted, whatever became of the task since. */
  predicate AfterStop(p: Phase) {
    && (p.Session? || p.Dead?)
    && (p.stage.DeletingRule? || p.stage.DeletingEth? || p.stage.Relinquishing? || p.stage.Finished?)
  }

  // ------------------------------------------------------------- one step

  predicate Starts(s: State, e: Event, c: nat) {
    e.Call? && e.c == c && e.effect && c < |s.conns| && InSession(s.conns[c].phase, StartingContainer)
  }

  predicate Kills(e: Event, c: nat) {
    e == ContainerExit(c) || (e.Stop? && e.c == c && e.killed)
  }

  /** Only its own start, stop and exit decide whether a container runs. */
  lemma RunningStep(s: State, e: Event, c: nat)
    requires Enabled(s, e)
    ensures c in Apply(s, e).running <==> (c in s.running && !Kills(e, c)) || Starts(s, e, c)
  {
  }

  lemma CallMade(p: Phase, ok: bool, effect: bool, st: Stage)
    requires p.Session? && Fallible(p.stage) && (st == StartingContainer || st == Stopping)
    ensures Made(AfterCall(p.session, p.stage, ok, effect), st) <==> Made(p, st) || InSession(p, st)
  {
  }

  lemma OtherMade(s: State, e: Event, st: Stage)
    requires Enabled(s, e) && OfConn(e) && !e.Call? && e.c < |s.conns| == |Apply(s, e).conns|
    requires st == StartingContainer || st == Stopping
    ensures Made(Apply(s, e).conns[e.c].phase, st)
            <==> Made(s.conns[e.c].phase, st) || InSession(s.conns[e.c].phase, st)
  {
  }

  lemma OwnMade(s: State, e: Event, st: Stage)
    requires Enabled(s, e) && OfConn(e) && e.c < |s.conns| == |Apply(s, e).conns|
    requires st == StartingContainer || st == Stopping
    ensures Made(Apply(s, e).conns[e.c].phase, st)
            <==> Made(s.conns[e.c].phase, st) || InSession(s.conns[e.c].phase, st)
  {
    if e.Call? {
      CallMade(s.conns[e.c].phase, e.ok, e.effect, st);
    } else {
      OtherMade(s, e, st);
    }
  }

  /** The start and the stop are passed once, by the task's own step there. */
  lemma MadeStep(s: State, e: Event, c: nat, st: Stage)
    requires Enabled(s, e) && c < |Apply(s, e).conns| && (st == StartingContainer || st == Stopping)
    ensures Made(Apply(s, e).conns[c].phase, st) ==> c < |s.conns|
    ensures c < |s.conns| ==>
              (Made(Apply(s, e).conns[c].phase, st)
              <==> Made(s.conns[c].phase, st) || (InSession(s.conns[c].phase, st) && OfConn(e) && e.c == c))
  {
    if OfConn(e) && e.c == c {
      OneConnSteps(s, e);
      OwnMade(s, e, st);
    } else if c < |s.conns| {
      OthersStay(s, e, c);
    }
  }

  lemma OwnServing(s: State, e: Event)
    requires Enabled(s, e) && OfConn(e) && e.c < |s.conns| == |Apply(s, e).conns|
    requires Serving(Apply(s, e).conns[e.c].phase)
    ensures if Starts(s, e, e.c) then !Made(s.conns[e.c].phase, StartingContainer)
            else Serving(s.conns[e.c].phase) && !e.Stop?
  {
  }

  lemma ServingStep(s: State, e: Event, c: nat)
    requires Enabled(s, e) && c < |Apply(s, e).conns| && Serving(Apply(s, e).conns[c].phase)
    ensures c < |s.conns|
    ensures if Starts(s, e, c) then !Made(s.conns[c].phase, StartingContainer)
            else Serving(s.conns[c].phase) && (Kills(e, c) ==> e == ContainerExit(c))
  {
    if OfConn(e) && e.c == c {
      OneConnSteps(s, e);
      OwnServing(s, e);
    } else if c < |s.conns| {
      OthersStay(s, e, c);
    }
  }

  // ------------------------------------------------------------- over a run

  ghost predicate MadeAt(r: Run, k: nat, c: nat, st: Stage) {
    k < |r.states| && c < |r.states[k].conns| && Made(r.states[k].conns[c].phase, st)
  }

  lemma {:induction false} MadeStays(r: Run, j: nat, k: nat, c: nat, st: Stage)
    requires IsPath(r) && j <= k < |r.states| && MadeAt(r, j, c, st) && (st == StartingContainer || st == Stopping)
    ensures MadeAt(r, k, c, st)
    decreases k
  {
    if j < k {
      MadeStays(r, j, k - 1, c, st);
      ConnsGrow(r.states[k - 1], r.events[k - 1]);
      MadeStep(r.states[k - 1], r.events[k - 1], c, st);
    }
  }

  lemma ConnsGrow(s: State, e: Event)
    requires Enabled(s, e)
    ensures |s.conns| <= |Apply(s, e).conns|
  {
    StepKeepsSize(s, e);
  }

  /** Only started containers run. */
  lemma {:induction false} RunningMeansStarted(n: nat, r: Run, k: nat, c: nat)
    requires IsRun(n, r) && k < |r.states| && c in r.states[k].running
    ensures MadeAt(r, k, c, StartingContainer)
  {
    if k > 0 {
      var s, e := r.states[k - 1], r.events[k - 1];
      RunningStep(s, e, c);
      if c in s.running {
        RunningMeansStarted(n, r, k - 1, c);
      }
      ConnsGrow(s, e);
      MadeStep(s, e, c, StartingContainer);
    }
  }

  ghost predicate ExitedBefore(r: Run, k: nat, c: nat) {
    exists j: nat :: j < k && j < |r.events| && r.events[j] == ContainerExit(c)
  }

  lemma ExitedStep(r: Run, k: nat, c: nat)
    requires k < |r.events|
    ensures ExitedBefore(r, k + 1, c) <==> ExitedBefore(r, k, c) || r.events[k] == ContainerExit(c)
  {
  }

  /** A container cannot have exited before it was started. */
  lemma NoExitBeforeStart(n: nat, r: Run, k: nat, c: nat)
    requires IsRun(n, r) && k < |r.states| && !MadeAt(r, k, c, StartingContainer)
    ensures !ExitedBefore(r, k, c)
  {
    if ExitedBefore(r, k, c) {
      var j: nat :| j < k && j < |r.events| && r.events[j] == ContainerExit(c);
      RunningMeansStarted(n, r, j, c);
      MadeStays(r, j, k, c, StartingContainer);
    }
  }

  /** From its start to its stop, and for ever if its task died in between, a session's
      container runs exactly as long as it has not exited by itself. */
  lemma {:induction false} RunsUnlessExited(n: nat, r: Run, k: nat, c: nat)
    requires IsRun(n, r) && k < |r.states| && c < |r.states[k].conns| && Serving(r.states[k].conns[c].phase)
    ensures c in r.states[k].running <==> !ExitedBefore(r, k, c)
  {
    if k > 0 {
      var s, e := r.states[k - 1], r.events[k - 1];
      ServingStep(s, e, c);
      RunningStep(s, e, c);
      ExitedStep(r, k - 1, c);
      if Starts(s, e, c) {
        NoExitBeforeStart(n, r, k - 1, c);
      } else {
        RunsUnlessExited(n, r, k - 1, c);
      }
    }
  }

  // ------------------------------------------------------------- beyond the stop

  /** At step `j` the stop of a running container failed without effect, and up to
      moment `k` it has not exited since. */
  ghost predicate Survived(r: Run, j: nat, k: nat, c: nat) {
    && j < k < |r.states| && |r.states| == |r.events| + 1
    && r.events[j] == Stop(c, StopFailed, false)
    && c in r.states[j].running
    && forall i: nat :: j < i < k ==> r.events[i] != ContainerExit(c)
  }

  /** A task attempts its stop once. */
  lemma StopOnce(r: Run, j: nat, k: nat, c: nat)
    requires IsPath(r) && j < k < |r.events|
    requires r.events[j].Stop? && r.events[j].c == c && r.events[k].Stop?
    ensures r.events[k].c != c
  {
    var s, e := r.states[j], r.events[j];
    assert Enabled(s, e) && Enabled(r.states[k], r.events[k]);
    OneConnSteps(s, e);
    MadeStep(s, e, c, Stopping);
    MadeStays(r, j + 1, k, c, Stopping);
  }

  lemma SurvivedLonger(r: Run, j: nat, k: nat, c: nat)
    requires |r.states| == |r.events| + 1 && j < k < |r.events|
    ensures Survived(r, j, k + 1, c) <==> Survived(r, j, k, c) && r.events[k] != ContainerExit(c)
  {
  }

  ghost predicate Outlived(r: Run, k: nat, c: nat) {
    exists j: nat :: Survived(r, j, k, c)
  }

  /** A step of a task past its stop. */
  lemma OutlivedStep(r: Run, k: nat, c: nat)
    requires IsPath(r) && k < |r.events| && MadeAt(r, k, c, Stopping)
    ensures Outlived(r, k + 1, c) <==> Outlived(r, k, c) && r.events[k] != ContainerExit(c)
    ensures c in r.states[k + 1].running <==> c in r.states[k].running && r.events[k] != ContainerExit(c)
  {
    assert Enabled(r.states[k], r.events[k]);
    RunningStep(r.states[k], r.events[k], c);
    var k' := k + 1;
    assert !Survived(r, k, k', c);
    forall j: nat | j < k
      ensures Survived(r, j, k', c) <==> Survived(r, j, k, c) && r.events[k] != ContainerExit(c)
    {
      SurvivedLonger(r, j, k, c);
    }
  }

  /** The stop itself. */
  lemma StopOutlived(r: Run, k: nat, c: nat)
    requires IsPath(r) && k < |r.events| && r.events[k].Stop? && r.events[k].c == c
    ensures Outlived(r, k + 1, c) <==> c in r.states[k + 1].running
  {
    var s, e := r.states[k], r.events[k];
    assert Enabled(s, e);
    RunningStep(s, e, c);
    var k' := k + 1;
    forall j: nat | j < k
      ensures !Survived(r, j, k', c)
    {
      if r.events[j] == Stop(c, StopFailed, false) {
        StopOnce(r, j, k, c);
      }
    }
    if c in r.states[k + 1].running {
      assert Survived(r, k, k', c);
    }
  }

  lemma {:induction false} RunsPastStop(n: nat, r: Run, k: nat, c: nat)
    requires IsRun(n, r) && MadeAt(r, k, c, Stopping)
    ensures c in r.states[k].running <==> Outlived(r, k, c)
  {
    if k > 0 {
      var s, e := r.states[k - 1], r.events[k - 1];
      MadeStep(s, e, c, Stopping);
      if MadeAt(r, k - 1, c, Stopping) {
        RunsPastStop(n, r, k - 1, c);
        OutlivedStep(r, k - 1, c);
      } else {
        StopOutlived(r, k - 1, c);
      }
    }
  }

  /** Once its stop was attempted, and so when its session has finished, a container
      still runs if and only if that stop failed without effect while it was running,
      with an error the daemon merely logs, and it has not exited since. */
  lemma {:induction false} OutlivesExactly(n: nat, r: Run, k: nat, c: nat)
    requires IsRun(n, r) && k < |r.states| && c < |r.states[k].conns| && AfterStop(r.states[k].conns[c].phase)
    ensures c in r.states[k].running <==> exists j: nat :: Survived(r, j, k, c)
  {
    assert MadeAt(r, k, c, Stopping);
    RunsPastStop(n, r, k, c);
  }

  /** In particular, what runs behind a finished session had its stop fail. */
  lemma OutlivesOnlyAfterStopError(n: nat, r: Run, k: nat, c: nat) returns (j: nat)
    requires IsRun(n, r) && k < |r.states| && c < |r.states[k].conns|
    requires InSession(r.states[k].conns[c].phase, Finished) && c in r.states[k].running
    ensures j < k && r.events[j] == Stop(c, StopFailed, false)
  {
    OutlivesExactly(n, r, k, c);
    j :| Survived(r, j, k, c);
  }

  lemma FailedStop(s: State, c: nat, a: nat)
    requires !s.ended && !s.aborted && c < |s.conns| && s.conns[c].phase == Session(Some(a), Stopping)
    ensures var e := Stop(c, StopFailed, false);
            && Enabled(s, e)
            && var s1 := Apply(s, e);
               && !s1.ended && !s1.aborted && s1.bits == s.bits && s1.running == s.running
               && |s1.conns| == |s.conns| && (forall d :: 0 <= d < |s.conns| && d != c ==> s1.conns[d] == s.conns[d])
               && s1.conns[c].phase == Session(Some(a), DeletingRule)
  {
  }

  /** And it can: from any state where a guest's running container is being stopped,
      a failed stop lets the whole teardown complete around it, bit included. */
  lemma StopErrorOutlives(s: State, c: nat, a: nat) returns (r: Run, s': State)
    requires !s.ended && !s.aborted && c < |s.conns| && InUse(s.bits, a)
    requires s.conns[c].phase == Session(Some(a), Stopping) && c in s.running
    ensures Completion(r, s, s', c, a)
    ensures c in s'.running && !InUse(s'.bits, a)
  {
    var e := Stop(c, StopFailed, false);
    FailedStop(s, c, a);
    r, s' := CompleteSession(Apply(s, e), c, a);
    CompletionPrepend(s, e, r, s', c, a);
    r := Prepend(s, e, r);
  }
}
