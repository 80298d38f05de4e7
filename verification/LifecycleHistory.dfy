/** What whole runs promise: how an address passes from one session to the next,
    and what a scan of the address bits has seen when it returns. */
module LifecycleHistory {
  import opened Basics
  import opened Lifecycle
  import opened LifecycleInvariant
  import opened LifecycleTheorems

  /** Connection `c` won address `a` with its `fetch_or` at step `k`. */
  ghost predicate TakesAt(r: Run, k: nat, c: nat, a: nat) {
    && k < |r.events| < |r.states|
    && r.events[k] == Probe(c)
    && c < |r.states[k].conns|
    && 1 <= a <= |r.states[k].bits|
    && r.states[k].conns[c].phase == Scanning(a - 1)
    && !r.states[k].bits[a - 1]
  }

  // ------------------------------------------------------------- one connection

  /** The connection has won `a` at some time, and possibly given it back. */
  predicate Bound(p: Phase, a: nat) {
    p == Taken(a) || ((p.Session? || p.Dead?) && p.session == Some(a))
  }

  /** The event by which a task leaves stage `st` for the next one. */
  predicate Completes(e: Event, c: nat, st: Stage) {
    match st
    case Waiting => e.Wake? && e.c == c
    case Stopping => e.Stop? && e.c == c
    case Relinquishing => e == Release(c)
    case Finished => false
    case _ => e == Call(c, true, true)
  }

  lemma OthersStay(s: State, e: Event, c: nat)
    requires Enabled(s, e) && c < |s.conns|
    requires OfConn(e) ==> e.c != c
    ensures c < |Apply(s, e).conns| && Apply(s, e).conns[c] == s.conns[c]
  {
    if OfConn(e) {
      OneConnSteps(s, e);
    }
  }

  lemma BoundStays(s: State, e: Event, c: nat, a: nat)
    requires Enabled(s, e) && c < |s.conns| && Bound(s.conns[c].phase, a)
    ensures c < |Apply(s, e).conns| && Bound(Apply(s, e).conns[c].phase, a)
    ensures s.conns[c].phase.Dead? ==> Apply(s, e).conns[c].phase == s.conns[c].phase
  {
    if OfConn(e) && e.c == c {
      OneConnSteps(s, e);
    } else {
      OthersStay(s, e, c);
    }
  }

  /** A task enters a stage only from the one before it, by completing that. */
  lemma EntersFromPrevious(s: State, e: Event, c: nat, a: nat, st: Stage)
    requires Enabled(s, e) && c < |s.conns| && Bound(s.conns[c].phase, a)
    requires s.conns[c].phase != Session(Some(a), st)
    requires c < |Apply(s, e).conns| && Apply(s, e).conns[c].phase == Session(Some(a), st)
    requires st != Spawned
    ensures var p := s.conns[c].phase;
            && p.Session? && p.session == Some(a) && p.stage != Finished
            && Next(true, p.stage) == st
            && Completes(e, c, p.stage)
  {
    if !OfConn(e) || e.c != c {
      OthersStay(s, e, c);
    }
  }

  // ------------------------------------------------------------- over a run

  ghost predicate At(r: Run, k: nat, c: nat, p: Phase) {
    k < |r.states| && c < |r.states[k].conns| && r.states[k].conns[c].phase == p
  }

  ghost predicate BoundAt(r: Run, k: nat, c: nat, a: nat) {
    k < |r.states| && c < |r.states[k].conns| && Bound(r.states[k].conns[c].phase, a)
  }

  lemma {:induction false} AddressSticks(r: Run, c: nat, a: nat, i: nat, j: nat)
    requires IsPath(r) && i <= j < |r.states| && BoundAt(r, i, c, a)
    ensures BoundAt(r, j, c, a)
    decreases j - i
  {
    if i < j {
      AddressSticks(r, c, a, i, j - 1);
      BoundStays(r.states[j - 1], r.events[j - 1], c, a);
    }
  }

  lemma PreviousUnique(st: Stage, prev: Stage)
    requires st != Finished && prev != Finished && Next(true, st) == Next(true, prev)
    ensures st == prev
  {
    RankNext(prev);
    RankNext(st);
    RankInjective(prev, st);
  }

  /** Between a time before stage `st` and a time at it, the previous stage was
      completed. */
  lemma {:induction false} Passed(r: Run, c: nat, a: nat, lo: nat, hi: nat, prev: Stage) returns (k: nat)
    requires IsPath(r) && lo <= hi < |r.states| && BoundAt(r, lo, c, a)
    requires prev != Finished
    requires !At(r, lo, c, Session(Some(a), Next(true, prev)))
    requires At(r, hi, c, Session(Some(a), Next(true, prev)))
    ensures lo <= k < hi && At(r, k, c, Session(Some(a), prev)) && Completes(r.events[k], c, prev)
    decreases hi - lo
  {
    var st := Next(true, prev);
    k := hi - 1;
    if At(r, k, c, Session(Some(a), st)) {
      k := Passed(r, c, a, lo, k, prev);
    } else {
      AddressSticks(r, c, a, lo, k);
      EntersFromPrevious(r.states[k], r.events[k], c, a, st);
      PreviousUnique(r.states[k].conns[c].phase.stage, prev);
    }
  }

  lemma WonThenBound(r: Run, k: nat, c: nat, a: nat)
    requires IsPath(r) && TakesAt(r, k, c, a)
    ensures At(r, k + 1, c, Taken(a))
  {
  }

  /** When an address is won again, its earlier session is finished. */
  lemma {:induction false} EarlierFinished(n: nat, r: Run, c: nat, d: nat, a: nat, i: nat, j: nat)
    requires IsRun(n, r) && i < j && TakesAt(r, i, c, a) && TakesAt(r, j, d, a)
    ensures At(r, j, c, Session(Some(a), Finished))
  {
    WonThenBound(r, i, c, a);
    AddressSticks(r, c, a, i + 1, j);
    Ownership(n, r, j);
    assert !HasOwner(r.states[j], a);
    assert !Owns(r.states[j].conns[c].phase, a);
  }

  lemma TakenClean(n: nat, r: Run, d: nat, a: nat, j: nat)
    requires IsRun(n, r) && TakesAt(r, j, d, a)
    ensures Empty(r.states[j].net, a)
  {
    RunInv(n, r, j);
    assert !InUse(r.states[j].bits, a);
  }

  /** Between two takes of one address the earlier session did its whole teardown,
      in order: peer, stop attempt, DNAT rule, eth42 address, bit. The new session
      finds nothing installed. */
  lemma {:induction false} TeardownBetweenTakes(n: nat, r: Run, c: nat, d: nat, a: nat, i: nat, j: nat)
    returns (peer: nat, stop: nat, rule: nat, eth: nat, bit: nat)
    requires IsRun(n, r) && i < j && TakesAt(r, i, c, a) && TakesAt(r, j, d, a)
    ensures c != d
    ensures i < peer < stop < rule < eth < bit < j
    ensures At(r, peer, c, Session(Some(a), RemovingPeer)) && r.events[peer] == Call(c, true, true)
    ensures At(r, stop, c, Session(Some(a), Stopping)) && r.events[stop].Stop? && r.events[stop].c == c
    ensures At(r, rule, c, Session(Some(a), DeletingRule)) && r.events[rule] == Call(c, true, true)
    ensures At(r, eth, c, Session(Some(a), DeletingEth)) && r.events[eth] == Call(c, true, true)
    ensures At(r, bit, c, Session(Some(a), Relinquishing)) && r.events[bit] == Release(c)
    ensures Empty(r.states[j].net, a)
  {
    EarlierFinished(n, r, c, d, a, i, j);
    WonThenBound(r, i, c, a);
    bit := Passed(r, c, a, i + 1, j, Relinquishing);
    eth := Passed(r, c, a, i + 1, bit, DeletingEth);
    rule := Passed(r, c, a, i + 1, eth, DeletingRule);
    stop := Passed(r, c, a, i + 1, rule, Stopping);
    var connect := Passed(r, c, a, i + 1, stop, Connecting);
    peer := Passed(r, c, a, i + 1, connect, RemovingPeer);
    TakenClean(n, r, d, a, j);
  }

  /** An address held by a dead session is never handed out again. */
  lemma {:induction false} DeadAddressIsLost(n: nat, r: Run, c: nat, a: nat, k: nat, j: nat, d: nat)
    requires IsRun(n, r) && k <= j < |r.states|
    requires BoundAt(r, k, c, a) && r.states[k].conns[c].phase.Dead?
    ensures At(r, j, c, r.states[k].conns[c].phase)
    ensures InUse(r.states[j].bits, a)
    ensures !TakesAt(r, j, d, a)
    decreases j
  {
    if k < j {
      DeadAddressIsLost(n, r, c, a, k, j - 1, d);
      BoundStays(r.states[j - 1], r.events[j - 1], c, a);
    }
    Ownership(n, r, j);
    assert Owns(r.states[j].conns[c].phase, a);
    assert HasOwner(r.states[j], a);
  }

  // ------------------------------------------------------------- who installed what

  predicate IsAdd(st: Stage) {
    st == AddingEth || st == AddingRule || st == AddingPeer
  }

  /** The entries that the call of stage `add` makes. */
  function Entries(net: Net, add: Stage): multiset<nat>
    requires IsAdd(add)
  {
    match add
    case AddingEth => net.eth
    case AddingRule => net.rules
    case AddingPeer => net.peers
  }

  /** The session with address `a` has got past its call of stage `add`. */
  predicate HasAdded(p: Phase, a: nat, add: Stage) {
    || (p.Session? && p.session == Some(a) && Rank(add) < Rank(p.stage))
    || (p.Dead? && p.session == Some(a) && (Rank(add) < Rank(p.stage) || (p.stage == add && p.effect)))
  }

  lemma CallAdds(p: Phase, ok: bool, effect: bool, a: nat, add: Stage)
    requires p.Session? && Fallible(p.stage) && (ok ==> effect) && IsAdd(add)
    requires HasAdded(AfterCall(p.session, p.stage, ok, effect), a, add)
    ensures HasAdded(p, a, add) || (p == Session(Some(a), add) && effect)
  {
    if ok && p.session.Some? {
      RankNext(p.stage);
    }
    RankInjective(p.stage, add);
  }

  lemma OthersAddNothing(s: State, e: Event, a: nat, add: Stage)
    requires Enabled(s, e) && OfConn(e) && !e.Call? && e.c < |s.conns| == |Apply(s, e).conns| && IsAdd(add)
    requires HasAdded(Apply(s, e).conns[e.c].phase, a, add)
    ensures HasAdded(s.conns[e.c].phase, a, add)
  {
  }

  lemma OwnAdds(s: State, e: Event, a: nat, add: Stage)
    requires Enabled(s, e) && OfConn(e) && e.c < |s.conns| == |Apply(s, e).conns| && IsAdd(add)
    requires HasAdded(Apply(s, e).conns[e.c].phase, a, add)
    ensures || HasAdded(s.conns[e.c].phase, a, add)
            || (s.conns[e.c].phase == Session(Some(a), add) && e.Call? && e.effect)
  {
    if e.Call? {
      CallAdds(s.conns[e.c].phase, e.ok, e.effect, a, add);
    } else {
      OthersAddNothing(s, e, a, add);
    }
  }

  /** Step `j` is the effective call by which connection `c` installed it. */
  ghost predicate AddsAt(r: Run, j: nat, c: nat, a: nat, add: Stage) {
    && j < |r.events| && At(r, j, c, Session(Some(a), add))
    && r.events[j].Call? && r.events[j].c == c && r.events[j].effect
  }

  lemma {:induction false} AddedBefore(n: nat, r: Run, k: nat, c: nat, a: nat, add: Stage) returns (j: nat)
    requires IsRun(n, r) && k < |r.states| && c < |r.states[k].conns| && IsAdd(add)
    requires HasAdded(r.states[k].conns[c].phase, a, add)
    ensures j < k && AddsAt(r, j, c, a, add)
  {
    j := k - 1;
    var s, e := r.states[j], r.events[j];
    if OfConn(e) && e.c == c {
      OneConnSteps(s, e);
      OwnAdds(s, e, a, add);
    } else if c < |s.conns| {
      OthersStay(s, e, c);
    }
    if !AddsAt(r, j, c, a, add) {
      j := AddedBefore(n, r, j, c, a, add);
    }
  }

  lemma ClaimedMeansAdded(p: Phase, a: nat, add: Stage, net: Net)
    requires IsAdd(add) && HoldsAddr(ClaimOf(p), a) && Matches(net, ClaimOf(p)) && Entries(net, add)[a] > 0
    ensures HasAdded(p, a, add)
  {
  }

  /** Whatever is installed at an address was installed by an effective call of the one
      connection that owns the address. */
  lemma {:induction false} InstalledByOwnCall(n: nat, r: Run, k: nat, a: nat, add: Stage) returns (c: nat, j: nat)
    requires IsRun(n, r) && k < |r.states| && IsAdd(add) && Entries(r.states[k].net, add)[a] > 0
    ensures c < |r.states[k].conns| && Owns(r.states[k].conns[c].phase, a)
    ensures j < k && AddsAt(r, j, c, a, add)
  {
    c := InstalledHasOwner(n, r, k, a);
    InstalledByOwner(n, r, k, c, a);
    ClaimedMeansAdded(r.states[k].conns[c].phase, a, add, r.states[k].net);
    j := AddedBefore(n, r, k, c, a, add);
  }

  // ------------------------------------------------------------- scans

  /** At step `j` connection `c` probed slot `m` and found it in use. */
  ghost predicate SawInUse(r: Run, j: nat, c: nat, m: nat) {
    && j < |r.events| < |r.states|
    && r.events[j] == Probe(c)
    && At(r, j, c, Scanning(m))
    && m < |r.states[j].bits|
    && r.states[j].bits[m]
  }

  /** How a scanning connection can have come to be at slot `i`. */
  lemma ScanStep(s: State, e: Event, c: nat, i: nat)
    requires Enabled(s, e) && c < |Apply(s, e).conns| && Apply(s, e).conns[c].phase == Scanning(i)
    ensures || (c < |s.conns| && s.conns[c].phase == Scanning(i))
            || (i == 0 && e == Parse(c))
            || (i > 0 && e == Probe(c) && s.conns[c].phase == Scanning(i - 1) && s.bits[i - 1])
  {
    if OfConn(e) && e.c != c {
      OneConnSteps(s, e);
    }
  }

  /** A scan at slot `i` has found every lower slot in use, each at its own probe. */
  lemma {:induction false} ScanSawLower(n: nat, r: Run, k: nat, c: nat, i: nat, m: nat) returns (j: nat)
    requires IsRun(n, r) && At(r, k, c, Scanning(i)) && m < i
    ensures j < k && SawInUse(r, j, c, m)
    decreases k
  {
    assert k > 0;
    ScanStep(r.states[k - 1], r.events[k - 1], c, i);
    if At(r, k - 1, c, Scanning(i)) {
      j := ScanSawLower(n, r, k - 1, c, i, m);
    } else if m == i - 1 {
      j := k - 1;
    } else {
      j := ScanSawLower(n, r, k - 1, c, i - 1, m);
    }
  }

  /** A won address was free at its own `fetch_or`, every lower slot having been
      seen in use before. */
  lemma {:induction false} SuccessfulScan(n: nat, r: Run, k: nat, c: nat, a: nat, m: nat) returns (j: nat)
    requires IsRun(n, r) && TakesAt(r, k, c, a) && m < a - 1
    ensures j < k && SawInUse(r, j, c, m)
  {
    j := ScanSawLower(n, r, k, c, a - 1, m);
  }

  lemma BindsByTake(s: State, e: Event, c: nat, a: nat)
    requires Enabled(s, e) && c < |Apply(s, e).conns| && Bound(Apply(s, e).conns[c].phase, a)
    ensures || (c < |s.conns| && Bound(s.conns[c].phase, a))
            || (e == Probe(c) && 1 <= a <= |s.bits| && s.conns[c].phase == Scanning(a - 1) && !s.bits[a - 1])
  {
    if OfConn(e) && e.c != c {
      OneConnSteps(s, e);
    }
  }

  /** Whoever has or had an address won it at a `fetch_or` that found it free. */
  lemma {:induction false} EveryHolderTook(n: nat, r: Run, k: nat, c: nat, a: nat) returns (j: nat)
    requires IsRun(n, r) && BoundAt(r, k, c, a)
    ensures j < k && TakesAt(r, j, c, a)
  {
    j := k - 1;
    BindsByTake(r.states[j], r.events[j], c, a);
    if BoundAt(r, j, c, a) {
      j := EveryHolderTook(n, r, j, c, a);
    }
  }

  /** BUSY is answered only after every slot was seen in use. */
  lemma {:induction false} FailedScan(n: nat, r: Run, k: nat, c: nat, m: nat) returns (j: nat)
    requires IsRun(n, r) && k < |r.events| && r.events[k] == GiveUp(c) && m < n
    ensures j < k && SawInUse(r, j, c, m)
  {
    RunInv(n, r, k);
    j := ScanSawLower(n, r, k, c, n, m);
  }

  // ------------------------------------------------------------- when BUSY means full

  ghost predicate BitAt(r: Run, k: nat, m: nat) {
    k < |r.states| && m < |r.states[k].bits| && r.states[k].bits[m]
  }

  /** Slot `m` is released at step `k`. */
  ghost predicate ReleasedAt(r: Run, k: nat, m: nat) {
    && k < |r.events| < |r.states|
    && r.events[k].Release?
    && r.events[k].c < |r.states[k].conns|
    && r.states[k].conns[r.events[k].c].phase == Session(Some(m + 1), Relinquishing)
  }

  /** Slot `m` is won by some connection's probe at step `k`. */
  ghost predicate WonAt(r: Run, k: nat, m: nat) {
    k < |r.events| && r.events[k].Probe? && TakesAt(r, k, r.events[k].c, m + 1)
  }

  /** Every slot released at a step in [lo, hi) is won again between that step and `hi`. */
  ghost predicate AllRetaken(r: Run, lo: nat, hi: nat) {
    forall k: nat, m: nat :: lo <= k < hi && ReleasedAt(r, k, m) ==> WonBetween(r, k, hi, m)
  }

  ghost predicate WonBetween(r: Run, k: nat, hi: nat, m: nat) {
    exists j: nat :: k < j < hi && WonAt(r, j, m)
  }

  /** A bit rises only by being won and falls only by being released. */
  lemma BitSteps(r: Run, k: nat, m: nat)
    requires IsPath(r) && k < |r.events| && m < |r.states[k].bits|
    ensures !BitAt(r, k, m) && BitAt(r, k + 1, m) ==> WonAt(r, k, m)
    ensures BitAt(r, k, m) && !BitAt(r, k + 1, m) ==> ReleasedAt(r, k, m)
    ensures WonAt(r, k, m) ==> BitAt(r, k + 1, m)
    ensures ReleasedAt(r, k, m) ==> !BitAt(r, k + 1, m)
  {
  }

  lemma {:induction false} FoundRise(n: nat, r: Run, lo: nat, hi: nat, m: nat) returns (j: nat)
    requires IsRun(n, r) && lo <= hi < |r.states| && m < n && !BitAt(r, lo, m) && BitAt(r, hi, m)
    ensures lo <= j < hi && WonAt(r, j, m)
    decreases hi
  {
    j := hi - 1;
    RunInv(n, r, j);
    BitSteps(r, j, m);
    if BitAt(r, j, m) {
      j := FoundRise(n, r, lo, j, m);
    }
  }

  lemma NotWonAtEnd(r: Run, k: nat, hi: nat, m: nat)
    requires !WonBetween(r, k, hi, m) && !WonAt(r, hi, m)
    ensures !WonBetween(r, k, hi + 1, m)
  {
  }

  /** The last release before a slot is found clear: nobody wins it after that. */
  lemma {:induction false} FoundFall(n: nat, r: Run, lo: nat, hi: nat, m: nat) returns (k: nat)
    requires IsRun(n, r) && lo <= hi < |r.states| && m < n && BitAt(r, lo, m) && !BitAt(r, hi, m)
    ensures lo <= k < hi && ReleasedAt(r, k, m) && !WonBetween(r, k, hi, m)
    decreases hi
  {
    k := hi - 1;
    RunInv(n, r, k);
    BitSteps(r, k, m);
    if !BitAt(r, k, m) {
      k := FoundFall(n, r, lo, k, m);
      NotWonAtEnd(r, k, hi - 1, m);
    }
  }

  /** A scan that began at `lo` has probed every lower slot since. */
  lemma {:induction false} ScanSawSince(r: Run, lo: nat, k: nat, c: nat, i: nat, m: nat) returns (j: nat)
    requires IsPath(r) && lo <= k && At(r, lo, c, Scanning(0)) && At(r, k, c, Scanning(i)) && m < i
    ensures lo <= j < k && SawInUse(r, j, c, m)
    decreases k
  {
    j := k - 1;
    ScanStep(r.states[j], r.events[j], c, i);
    if At(r, j, c, Scanning(i)) {
      j := ScanSawSince(r, lo, j, c, i, m);
    } else if m < i - 1 {
      j := ScanSawSince(r, lo, j, c, i - 1, m);
    }
  }

  lemma {:induction false} RetakenMeansSet(n: nat, r: Run, lo: nat, hi: nat, c: nat, m: nat)
    requires IsRun(n, r) && lo <= hi && At(r, lo, c, Scanning(0)) && At(r, hi, c, Scanning(n)) && m < n
    requires AllRetaken(r, lo, hi)
    ensures BitAt(r, hi, m)
  {
    var j := ScanSawSince(r, lo, hi, c, n, m);
    if !BitAt(r, hi, m) {
      var k := FoundFall(n, r, j, hi, m);
    }
  }

  lemma {:induction false} SetMeansRetaken(n: nat, r: Run, hi: nat, k: nat, m: nat)
    requires IsRun(n, r) && k < hi < |r.states| && ReleasedAt(r, k, m) && m < n && BitAt(r, hi, m)
    ensures WonBetween(r, k, hi, m)
  {
    RunInv(n, r, k);
    BitSteps(r, k, m);
    var j := FoundRise(n, r, k + 1, hi, m);
  }

  /** BUSY means full exactly when every slot released during the scan was won again
      before the answer. */
  lemma {:induction false} BusyExactlyWhenRetaken(n: nat, r: Run, lo: nat, hi: nat, c: nat)
    requires IsRun(n, r) && lo <= hi < |r.events| && At(r, lo, c, Scanning(0)) && r.events[hi] == GiveUp(c)
    ensures (forall m: nat :: m < n ==> BitAt(r, hi, m)) <==> AllRetaken(r, lo, hi)
  {
    RunInv(n, r, hi);
    if AllRetaken(r, lo, hi) {
      forall m: nat | m < n
        ensures BitAt(r, hi, m)
      {
        RetakenMeansSet(n, r, lo, hi, c, m);
      }
    }
    if forall m: nat :: m < n ==> BitAt(r, hi, m) {
      forall k: nat, m: nat | lo <= k < hi && ReleasedAt(r, k, m)
        ensures WonBetween(r, k, hi, m)
      {
        ReleaseInBounds(n, r, k, r.events[k].c);
        SetMeansRetaken(n, r, hi, k, m);
      }
    }
  }

  /** In particular, if nothing was released during the scan, all n slots are in use
      when BUSY is answered. */
  lemma {:induction false} BusyMeansFull(n: nat, r: Run, lo: nat, hi: nat, c: nat)
    requires IsRun(n, r) && lo <= hi < |r.events| && At(r, lo, c, Scanning(0)) && r.events[hi] == GiveUp(c)
    requires forall k :: lo <= k < hi ==> !r.events[k].Release?
    ensures |r.states[hi].bits| == n && forall m :: 0 <= m < n ==> r.states[hi].bits[m]
  {
    RunInv(n, r, hi);
    BusyExactlyWhenRetaken(n, r, lo, hi, c);
    forall m: nat | m < n
      ensures r.states[hi].bits[m]
    {
      assert BitAt(r, hi, m);
    }
  }

  /** A path extended by one more event at its front. */
  function Prepend(s: State, e: Event, r: Run): Run {
    Run([s] + r.states, [e] + r.events)
  }

  lemma PrependPath(s: State, e: Event, r: Run)
    requires IsPath(r) && Enabled(s, e) && r.states[0] == Apply(s, e)
    ensures IsPath(Prepend(s, e, r)) && Prepend(s, e, r).states[0] == s
    ensures Prepend(s, e, r).states[|r.events| + 1] == r.states[|r.events|]
  {
  }

  function Last(r: Run): State
    requires |r.states| > 0
  {
    r.states[|r.states| - 1]
  }

  /** One path after another. */
  function Chain(r: Run, q: Run): Run
    requires |q.states| > 0
  {
    Run(r.states + q.states[1..], r.events + q.events)
  }

  lemma ChainStep(r: Run, q: Run, k: nat)
    requires IsPath(r) && IsPath(q) && q.states[0] == Last(r) && k < |r.events| + |q.events|
    ensures var j := Chain(r, q);
            Enabled(j.states[k], j.events[k]) && j.states[k + 1] == Apply(j.states[k], j.events[k])
  {
    var j := Chain(r, q);
    if k < |r.events| {
      assert j.events[k] == r.events[k] && j.states[k] == r.states[k] && j.states[k + 1] == r.states[k + 1];
    } else {
      var i := k - |r.events|;
      assert j.events[k] == q.events[i] && j.states[k] == q.states[i] && j.states[k + 1] == q.states[i + 1];
    }
  }

  lemma ChainPath(r: Run, q: Run)
    requires IsPath(r) && IsPath(q) && q.states[0] == Last(r)
    ensures var j := Chain(r, q);
            IsPath(j) && j.states[0] == r.states[0] && Last(j) == Last(q)
  {
    var j := Chain(r, q);
    forall k: nat | k < |j.events|
      ensures Enabled(j.states[k], j.events[k]) && j.states[k + 1] == Apply(j.states[k], j.events[k])
    {
      ChainStep(r, q, k);
    }
  }

  /** A path extended by one more event at its end. */
  lemma Extend(r: Run, s: State, e: Event)
    requires IsPath(r) && r.states[|r.events|] == s && Enabled(s, e)
    ensures IsPath(Run(r.states + [Apply(s, e)], r.events + [e]))
  {
    var r' := Run(r.states + [Apply(s, e)], r.events + [e]);
    forall k | 0 <= k < |r'.events|
      ensures Enabled(r'.states[k], r'.events[k]) && r'.states[k + 1] == Apply(r'.states[k], r'.events[k])
    {
      assert r'.states[k] == r.states[k];
    }
  }

  /** None of the first `k` steps is a failed call. */
  ghost predicate NoFailures(r: Run, k: nat) {
    k < |r.states| && forall j :: 0 <= j < k && j < |r.events| && r.events[j].Call? ==> r.events[j].ok
  }

  ghost predicate GoesWell(r: Run) {
    IsPath(r) && NoFailures(r, |r.events|)
  }

  lemma ChainGoesWell(r: Run, q: Run)
    requires GoesWell(r) && GoesWell(q) && q.states[0] == Last(r)
    ensures GoesWell(Chain(r, q)) && Chain(r, q).states[0] == r.states[0] && Last(Chain(r, q)) == Last(q)
  {
    ChainPath(r, q);
  }

  /** Run alone, a scan returns the least free address, and fails only when no slot
      is free. */
  lemma {:induction false} ScanAlone(s: State, c: nat) returns (r: Run, s': State)
    requires !s.ended && !s.aborted && c < |s.conns|
    requires s.conns[c].phase.Scanning? && s.conns[c].phase.next <= |s.bits|
    ensures IsPath(r) && r.states[0] == s && r.states[|r.events|] == s'
    ensures forall k :: 0 <= k < |r.events| ==> r.events[k] == Probe(c)
    ensures |s'.conns| == |s.conns|
    ensures var i, p := s.conns[c].phase.next, s'.conns[c].phase;
            || (p.Taken? && p.addr > 0 && IsLeastFree(s.bits, i, p.addr - 1) && s'.bits == s.bits[p.addr - 1 := true])
            || (p == Scanning(|s.bits|) && s'.bits == s.bits && forall m :: i <= m < |s.bits| ==> s.bits[m])
    decreases |s.bits| - s.conns[c].phase.next
  {
    var i := s.conns[c].phase.next;
    if i == |s.bits| {
      r, s' := Run([s], []), s;
    } else {
      var s1 := Apply(s, Probe(c));
      if s.bits[i] {
        assert s1.bits == s.bits;
        r, s' := ScanAlone(s1, c);
        PrependPath(s, Probe(c), r);
        r := Prepend(s, Probe(c), r);
      } else {
        r, s' := Run([s, s1], [Probe(c)]), s1;
      }
    }
  }

  // ------------------------------------------------------------- a session alone

  /** The step by which a session's next call succeeds. */
  function Success(c: nat, st: Stage): Event {
    match st
    case Waiting => Wake(c, Timer)
    case Stopping => Stop(c, StopOk, true)
    case Relinquishing => Release(c)
    case _ => Call(c, true, true)
  }

  lemma Advance(s: State, c: nat, a: nat, st: Stage)
    requires !s.ended && !s.aborted && c < |s.conns| && 1 <= a <= |s.bits|
    requires s.conns[c].phase == Session(Some(a), st) && st != Finished
    ensures var e := Success(c, st);
            && Enabled(s, e)
            && var s' := Apply(s, e);
               && !s'.ended && !s'.aborted && s'.cancelled == s.cancelled
               && |s'.conns| == |s.conns|
               && s'.conns == s.conns[c := s'.conns[c]]
               && s'.conns[c].phase == Session(Some(a), Next(true, st))
               && s'.bits == (if st == Relinquishing then s.bits[a - 1 := false] else s.bits)
               && (Rank(Stopping) < Rank(st) ==> s'.running == s.running)
               && (st == StartingContainer ==> c in s'.running)
               && (st != Stopping ==> s.running <= s'.running)
  {
  }

  /** A path that takes the session of `c` to stage `st`, no bit and no running
      container being lost on the way. */
  ghost predicate Progress(r: Run, s: State, s': State, c: nat, a: nat, st: Stage) {
    && IsPath(r) && r.states[0] == s && r.states[|r.events|] == s'
    && !s'.ended && !s'.aborted && s'.bits == s.bits && s.running <= s'.running
    && |s'.conns| == |s.conns| && c < |s.conns| && s'.conns[c].phase == Session(Some(a), st)
  }

  lemma ProgressPrepend(s: State, e: Event, r: Run, s': State, c: nat, a: nat, st: Stage)
    requires Enabled(s, e) && Progress(r, Apply(s, e), s', c, a, st)
    requires var s1 := Apply(s, e); s1.bits == s.bits && s.running <= s1.running && |s1.conns| == |s.conns|
    ensures Progress(Prepend(s, e, r), s, s', c, a, st)
  {
    PrependPath(s, e, r);
  }

  /** With its calls succeeding, a guest session gets from any stage to any later one up
      to its stop, and its container is running once it has been started. */
  lemma {:induction false} AdvanceTo(s: State, c: nat, a: nat, here: Stage, st: Stage) returns (r: Run, s': State)
    requires !s.ended && !s.aborted && c < |s.conns| && 1 <= a <= |s.bits|
    requires s.conns[c].phase == Session(Some(a), here) && Rank(here) <= Rank(st) <= Rank(Stopping)
    ensures Progress(r, s, s', c, a, st)
    ensures Rank(here) <= Rank(StartingContainer) < Rank(st) ==> c in s'.running
    decreases Rank(st) - Rank(here)
  {
    RankInjective(here, st);
    if here == st {
      r, s' := Run([s], []), s;
    } else {
      var e := Success(c, here);
      Advance(s, c, a, here);
      RankNext(here);
      RankInjective(here, StartingContainer);
      r, s' := AdvanceTo(Apply(s, e), c, a, Next(true, here), st);
      ProgressPrepend(s, e, r, s', c, a, st);
      r := Prepend(s, e, r);
    }
  }

  /** A path on which the session of `c` runs to its end and gives its address back,
      touching no other connection or bit. */
  ghost predicate Completion(r: Run, s: State, s': State, c: nat, a: nat) {
    && IsPath(r) && r.states[0] == s && r.states[|r.events|] == s'
    && !s'.ended && !s'.aborted
    && |s'.conns| == |s.conns| && (forall d :: 0 <= d < |s.conns| && d != c ==> s'.conns[d] == s.conns[d])
    && c < |s.conns| && s'.conns[c].phase == Session(Some(a), Finished)
    && 1 <= a <= |s.bits| && s'.bits == s.bits[a - 1 := false]
    && (forall k :: 0 <= k < |r.states| ==> r.states[k].bits == s.bits || r.states[k].bits == s'.bits)
  }

  lemma CompletionPrepend(s: State, e: Event, r: Run, s': State, c: nat, a: nat)
    requires Enabled(s, e) && Completion(r, Apply(s, e), s', c, a)
    requires var s1 := Apply(s, e);
             && s1.bits == s.bits && |s1.conns| == |s.conns|
             && forall d :: 0 <= d < |s.conns| && d != c ==> s1.conns[d] == s.conns[d]
    ensures Completion(Prepend(s, e, r), s, s', c, a)
  {
    PrependPath(s, e, r);
    var q := Prepend(s, e, r);
    forall k | 0 <= k < |q.states|
      ensures q.states[k].bits == s.bits || q.states[k].bits == s'.bits
    {
      if k > 0 {
        assert q.states[k] == r.states[k - 1];
      }
    }
  }

  /** Left alone with no call failing, a guest session runs to its end. */
  lemma {:induction false} CompleteSession(s: State, c: nat, a: nat) returns (r: Run, s': State)
    requires !s.ended && !s.aborted && c < |s.conns| && InUse(s.bits, a)
    requires s.conns[c].phase.Session? && s.conns[c].phase.session == Some(a) && s.conns[c].phase.stage != Finished
    ensures Completion(r, s, s', c, a)
    ensures Rank(Stopping) < Rank(s.conns[c].phase.stage) ==> s'.running == s.running
    decreases Rank(Finished) - Rank(s.conns[c].phase.stage)
  {
    var st := s.conns[c].phase.stage;
    var e := Success(c, st);
    Advance(s, c, a, st);
    RankNext(st);
    var s1 := Apply(s, e);
    if st == Relinquishing {
      r, s' := Run([s, s1], [e]), s1;
    } else {
      RankInjective(st, Relinquishing);
      r, s' := CompleteSession(s1, c, a);
      CompletionPrepend(s, e, r, s', c, a);
      r := Prepend(s, e, r);
    }
  }
}
