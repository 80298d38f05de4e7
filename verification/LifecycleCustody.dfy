/** The container id: `shutdown` takes it out of the `Container`, and `drop` panics
    on a `Container` that still has it. */
module LifecycleCustody {
  import opened Basics
  import opened Lifecycle
  import opened LifecycleInvariant
  import opened LifecycleTheorems
  import opened LifecycleHistory
  import opened LifecycleShutdown

  // ------------------------------------------------------------- events

  ghost predicate CallAt(s: State, e: Event, c: nat, st: Stage, ok: bool) {
    e.Call? && e.c == c && e.ok == ok && c < |s.conns| && InSession(s.conns[c].phase, st)
  }

  /** `Container::create` returns a value: after the DNAT rule for a guest, after
      the start for a demo. */
  ghost predicate Builds(s: State, e: Event, c: nat) {
    || CallAt(s, e, c, AddingRule, true)
    || (CallAt(s, e, c, StartingContainer, true) && s.conns[c].phase.session.None?)
  }

  /** `shutdown` takes the id. */
  ghost predicate TakesId(s: State, e: Event, c: nat) {
    CallAt(s, e, c, Connecting, true)
  }

  /** A `Container` with its id is dropped: the peer was refused, its removal failed,
      or the connect in `shutdown` panicked. */
  ghost predicate DropPanics(s: State, e: Event, c: nat) {
    CallAt(s, e, c, AddingPeer, false) || CallAt(s, e, c, RemovingPeer, false) || CallAt(s, e, c, Connecting, false)
  }

  /** How often something happened to connection `c` in the first `k` steps. */
  ghost function Times(happens: (State, Event, nat) -> bool, r: Run, c: nat, k: nat): nat
    requires k < |r.states| && |r.states| == |r.events| + 1
  {
    if k == 0 then 0 else Times(happens, r, c, k - 1) + Count(happens(r.states[k - 1], r.events[k - 1], c))
  }

  // ------------------------------------------------------------- custody

  datatype Custody = NotBuilt | Holding | Handed | Dropped

  /** `Container::create` has not returned yet. */
  predicate Unbuilt(st: Stage) {
    st.Spawned? || st.AddingEth? || st.CreatingContainer? || st.StartingContainer? || st.Inspecting? || st.AddingRule?
  }

  /** The `Container` exists and has its id. */
  predicate InHand(st: Stage) {
    st.AddingPeer? || st.Waiting? || st.RemovingPeer? || st.Connecting?
  }

  function CustodyOf(p: Phase): Custody {
    match p
    case Session(_, st) => if Unbuilt(st) then NotBuilt else if InHand(st) then Holding else Handed
    case Dead(_, st, _) => if Unbuilt(st) then NotBuilt else if InHand(st) then Dropped else Handed
    case _ => NotBuilt
  }

  /** Where a task dies decides what becomes of the container: before `create` has returned
      there is none to drop; from then on it is dropped with its id, and its drop check
      panics, until `shutdown` has taken the id. */
  lemma CustodyOfTheDead(addr: Option<nat>, st: Stage, effect: bool)
    requires Fallible(st)
    ensures var x := CustodyOf(Dead(addr, st, effect));
            && (x == NotBuilt <==>
                || st.Spawned? || st.AddingEth? || st.CreatingContainer? || st.StartingContainer? || st.Inspecting?
                || st.AddingRule?)
            && (x == Dropped <==> st.AddingPeer? || st.RemovingPeer? || st.Connecting?)
            && (x == Handed <==> st.DeletingRule? || st.DeletingEth?)
  {
  }

  ghost function CustodyAt(s: State, c: nat): Custody {
    if c < |s.conns| then CustodyOf(s.conns[c].phase) else NotBuilt
  }

  /** The only moves: built, then handed to `shutdown` or dropped. */
  ghost predicate CustodyMove(before: Custody, after: Custody, builds: bool, takes: bool, drops: bool) {
    if builds then before == NotBuilt && after == Holding && !takes && !drops
    else if takes then before == Holding && after == Handed && !drops
    else if drops then before == Holding && after == Dropped
    else before == after
  }

  lemma CallCustody(addr: Option<nat>, st: Stage, ok: bool, effect: bool)
    requires Fallible(st) && (addr.None? ==> !GuestOnly(st))
    ensures CustodyMove(CustodyOf(Session(addr, st)), CustodyOf(AfterCall(addr, st, ok, effect)),
                        ok && (st == AddingRule || (st == StartingContainer && addr.None?)),
                        ok && st == Connecting,
                        !ok && (st == AddingPeer || st == RemovingPeer || st == Connecting))
  {
  }

  lemma CallStepCustody(s: State, c: nat, ok: bool, effect: bool)
    requires Inv(s) && Enabled(s, Call(c, ok, effect))
    ensures var e := Call(c, ok, effect);
            CustodyMove(CustodyAt(s, c), CustodyAt(ApplyCall(s, c, ok, effect), c),
                        Builds(s, e, c), TakesId(s, e, c), DropPanics(s, e, c))
  {
    assert WellShaped(|s.bits|, s.conns[c].phase);
    CallCustody(s.conns[c].phase.session, s.conns[c].phase.stage, ok, effect);
  }

  lemma OtherCustody(s: State, e: Event, c: nat)
    requires Enabled(s, e) && (OfConn(e) ==> e.c != c)
    ensures CustodyAt(Apply(s, e), c) == CustodyAt(s, c)
  {
    if OfConn(e) {
      OneConnSteps(s, e);
    }
  }

  lemma StepCustody(s: State, e: Event, c: nat)
    requires Inv(s) && Enabled(s, e)
    ensures CustodyMove(CustodyAt(s, c), CustodyAt(Apply(s, e), c),
                        Builds(s, e, c), TakesId(s, e, c), DropPanics(s, e, c))
  {
    if !OfConn(e) || e.c != c {
      OtherCustody(s, e, c);
    } else if e.Call? {
      CallStepCustody(s, c, e.ok, e.effect);
    } else {
      OneConnSteps(s, e);
      SilentCustody(s, e);
    }
  }

  lemma SilentCustody(s: State, e: Event)
    requires Enabled(s, e) && OfConn(e) && !e.Call? && e.c < |s.conns| == |Apply(s, e).conns|
    ensures CustodyAt(Apply(s, e), e.c) == CustodyAt(s, e.c)
  {
  }

  lemma CountsMove(x: Custody, x': Custody, builds: bool, takes: bool, drops: bool)
    requires CustodyMove(x, x', builds, takes, drops)
    ensures Count(x' != NotBuilt) == Count(x != NotBuilt) + Count(builds)
    ensures Count(x' == Handed) == Count(x == Handed) + Count(takes)
    ensures Count(x' == Dropped) == Count(x == Dropped) + Count(drops)
  {
  }

  /** Step `k` changes the three counts of connection `c` as its custody moves. */
  ghost predicate Counted(r: Run, c: nat, k: nat)
    requires |r.states| == |r.events| + 1
  {
    k < |r.events| ==>
      var s, e := r.states[k], r.events[k];
      var x, x' := CustodyAt(s, c), CustodyAt(r.states[k + 1], c);
      && Count(x' != NotBuilt) == Count(x != NotBuilt) + Count(Builds(s, e, c))
      && Count(x' == Handed) == Count(x == Handed) + Count(TakesId(s, e, c))
      && Count(x' == Dropped) == Count(x == Dropped) + Count(DropPanics(s, e, c))
  }

  lemma StepCounted(n: nat, r: Run, c: nat, k: nat)
    requires IsRun(n, r)
    ensures Counted(r, c, k)
  {
    if k < |r.events| {
      var s, e := r.states[k], r.events[k];
      RunInv(n, r, k);
      StepCustody(s, e, c);
      var x, x' := CustodyAt(s, c), CustodyAt(r.states[k + 1], c);
      CountsMove(x, x', Builds(s, e, c), TakesId(s, e, c), DropPanics(s, e, c));
    }
  }

  lemma {:induction false} TimesAddUp(r: Run, c: nat, k: nat)
    requires |r.states| == |r.events| + 1 && k < |r.states| && CustodyAt(r.states[0], c) == NotBuilt
    requires forall j: nat :: Counted(r, c, j)
    ensures var x := CustodyAt(r.states[k], c);
            && Times(Builds, r, c, k) == Count(x != NotBuilt)
            && Times(TakesId, r, c, k) == Count(x == Handed)
            && Times(DropPanics, r, c, k) == Count(x == Dropped)
  {
    if k > 0 {
      TimesAddUp(r, c, k - 1);
      assert Counted(r, c, k - 1);
    }
  }

  /** Conservation over every run, failures included: each connection builds at most
      one container, and that container is in exactly one place: still held, its id
      taken by one shutdown, or dropped with its id by one panic. */
  lemma {:induction false} IdConserved(n: nat, r: Run, c: nat, k: nat)
    requires IsRun(n, r) && k < |r.states|
    ensures var x := CustodyAt(r.states[k], c);
            && Times(Builds, r, c, k) == Count(x != NotBuilt)
            && Times(TakesId, r, c, k) == Count(x == Handed)
            && Times(DropPanics, r, c, k) == Count(x == Dropped)
            && Times(Builds, r, c, k) == Count(x == Holding) + Times(TakesId, r, c, k) + Times(DropPanics, r, c, k)
  {
    forall j: nat
      ensures Counted(r, c, j)
    {
      StepCounted(n, r, c, j);
    }
    TimesAddUp(r, c, k);
  }

  /** On a run without failures the drop check never fires, and whenever the tracker is
      empty, every container built so far, guest or demo, has had its id taken by
      exactly one shutdown, whatever woke its supervisor. */
  lemma {:induction false} EveryContainerShutDown(n: nat, r: Run, c: nat, k: nat)
    requires IsRun(n, r) && NoFailures(r, k)
    ensures Times(DropPanics, r, c, k) == 0
    ensures TrackerEmpty(r.states[k]) ==> Times(TakesId, r, c, k) == Times(Builds, r, c, k)
  {
    IdConserved(n, r, c, k);
    NobodyDies(n, r, k);
    if TrackerEmpty(r.states[k]) && c < |r.states[k].conns| {
      assert !Tracked(r.states[k].conns[c].phase);
    }
  }
}
