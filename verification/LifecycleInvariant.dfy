/** What every step of the daemon keeps, whatever fails: address ownership and the
    nesting of network resources. */
module LifecycleInvariant {
  import opened Basics
  import opened Lifecycle

  // ------------------------------------------------------------- claims

  /** What a connection has to its name: an address, and which network resources
      its own progress says are installed for it. */
  datatype Claim = Free | Held(addr: nat, eth: bool, rule: bool, peer: bool)

  predicate Between(st: Stage, add: Stage, delete: Stage) {
    Rank(add) < Rank(st) <= Rank(delete)
  }

  /** Installed for a task that died at `st`, where the failing call may have acted. */
  predicate LeftBehind(st: Stage, effect: bool, add: Stage, delete: Stage) {
    if st == add then effect else if st == delete then !effect else Between(st, add, delete)
  }

  /** An address is held from winning its bit to clearing it. A task that died
      holds its address for ever. */
  function ClaimOf(p: Phase): Claim {
    match p
    case Taken(a) => Held(a, false, false, false)
    case Session(Some(a), st) =>
      if st.Finished? then
        Free
      else
        Held(a, Between(st, AddingEth, DeletingEth), Between(st, AddingRule, DeletingRule),
             Between(st, AddingPeer, RemovingPeer))
    case Dead(Some(a), st, effect) =>
      Held(a, LeftBehind(st, effect, AddingEth, DeletingEth), LeftBehind(st, effect, AddingRule, DeletingRule),
           LeftBehind(st, effect, AddingPeer, RemovingPeer))
    case _ => Free
  }

  ghost function Claims(s: State): (cs: seq<Claim>)
    ensures |cs| == |s.conns|
    ensures forall c :: 0 <= c < |cs| ==> cs[c] == ClaimOf(s.conns[c].phase)
  {
    seq(|s.conns|, c requires 0 <= c < |s.conns| => ClaimOf(s.conns[c].phase))
  }

  // ------------------------------------------------------------- the invariant

  function Count(b: bool): nat {
    if b then 1 else 0
  }

  predicate HoldsAddr(k: Claim, a: nat) {
    k.Held? && k.addr == a
  }

  ghost predicate HasHolder(cs: seq<Claim>, a: nat) {
    exists c :: 0 <= c < |cs| && HoldsAddr(cs[c], a)
  }

  predicate InUse(bits: seq<bool>, a: nat) {
    1 <= a <= |bits| && bits[a - 1]
  }

  ghost predicate HoldersInUse(bits: seq<bool>, cs: seq<Claim>) {
    forall c :: 0 <= c < |cs| && cs[c].Held? ==> InUse(bits, cs[c].addr)
  }

  ghost predicate HoldersDistinct(cs: seq<Claim>) {
    forall c, d :: 0 <= c < d < |cs| && cs[c].Held? && cs[d].Held? ==> cs[c].addr != cs[d].addr
  }

  ghost predicate BitsHeld(bits: seq<bool>, cs: seq<Claim>) {
    forall a: nat :: InUse(bits, a) ==> HasHolder(cs, a)
  }

  /** The network holds at `k`'s address exactly what `k` says. */
  predicate Matches(net: Net, k: Claim) {
    k.Held? ==>
      && net.eth[k.addr] == Count(k.eth)
      && net.rules[k.addr] == Count(k.rule)
      && net.peers[k.addr] == Count(k.peer)
  }

  predicate Empty(net: Net, a: nat) {
    net.eth[a] == 0 && net.rules[a] == 0 && net.peers[a] == 0
  }

  ghost predicate NetMatches(net: Net, cs: seq<Claim>) {
    forall c :: 0 <= c < |cs| ==> Matches(net, cs[c])
  }

  ghost predicate NetInUse(bits: seq<bool>, net: Net) {
    forall a: nat :: Empty(net, a) || InUse(bits, a)
  }

  ghost predicate LedgerInv(bits: seq<bool>, cs: seq<Claim>, net: Net) {
    && HoldersInUse(bits, cs)
    && HoldersDistinct(cs)
    && BitsHeld(bits, cs)
    && NetMatches(net, cs)
    && NetInUse(bits, net)
  }

  /** Only guest tasks reach guest stages, scans stay in the array, and a task dies
      only at a call that can fail. */
  predicate WellShaped(n: nat, p: Phase) {
    match p
    case Scanning(i) => i <= n
    case Session(addr, st) => addr.None? ==> !GuestOnly(st)
    case Dead(addr, st, _) => Fallible(st) && (addr.None? ==> !GuestOnly(st))
    case _ => true
  }

  ghost predicate AllWellShaped(s: State) {
    forall c :: 0 <= c < |s.conns| ==> WellShaped(|s.bits|, s.conns[c].phase)
  }

  ghost predicate Inv(s: State) {
    LedgerInv(s.bits, Claims(s), s.net) && AllWellShaped(s)
  }

  lemma InitInv(n: nat)
    ensures Inv(Init(n))
  {
  }

  // ------------------------------------------------------------- ledger moves

  lemma HolderStays(cs: seq<Claim>, c: nat, k: Claim, a: nat)
    requires c < |cs| && HasHolder(cs, a)
    requires HoldsAddr(cs[c], a) ==> HoldsAddr(k, a)
    ensures HasHolder(cs[c := k], a)
  {
    var d :| 0 <= d < |cs| && HoldsAddr(cs[d], a);
    assert HoldsAddr(cs[c := k][d], a);
  }

  /** A connection that keeps its address may change the network at that address. */
  lemma KeepMove(bits: seq<bool>, cs: seq<Claim>, net: Net, c: nat, k: Claim, net': Net)
    requires LedgerInv(bits, cs, net) && c < |cs|
    requires if cs[c].Held? then HoldsAddr(k, cs[c].addr) else k.Free?
    requires Matches(net', k)
    requires forall a: nat {:trigger SameAt(net, net', a)} :: HoldsAddr(k, a) || SameAt(net, net', a)
    ensures LedgerInv(bits, cs[c := k], net')
  {
    var cs' := cs[c := k];
    forall a: nat | InUse(bits, a)
      ensures HasHolder(cs', a)
    {
      HolderStays(cs, c, k, a);
    }
    forall d | 0 <= d < |cs'|
      ensures Matches(net', cs'[d])
    {
      if d != c && cs[d].Held? {
        assert SameAt(net, net', cs[d].addr);
      }
    }
    forall a: nat
      ensures Empty(net', a) || InUse(bits, a)
    {
      assert HoldsAddr(k, a) || SameAt(net, net', a);
    }
  }

  predicate SameAt(net: Net, net': Net, a: nat) {
    net.eth[a] == net'.eth[a] && net.rules[a] == net'.rules[a] && net.peers[a] == net'.peers[a]
  }

  /** Winning a clear bit: nothing of an earlier session is left at the address. */
  lemma TakeMove(bits: seq<bool>, cs: seq<Claim>, net: Net, c: nat, i: nat)
    requires LedgerInv(bits, cs, net) && c < |cs| && cs[c].Free?
    requires i < |bits| && !bits[i]
    ensures LedgerInv(bits[i := true], cs[c := Held(i + 1, false, false, false)], net)
  {
    var bits', k := bits[i := true], Held(i + 1, false, false, false);
    assert forall a: nat :: InUse(bits', a) <==> InUse(bits, a) || a == i + 1;
    assert !InUse(bits, i + 1);
    forall a: nat | InUse(bits', a)
      ensures HasHolder(cs[c := k], a)
    {
      if a == i + 1 {
        assert HoldsAddr(cs[c := k][c], a);
      } else {
        HolderStays(cs, c, k, a);
      }
    }
    assert Empty(net, i + 1);
  }

  /** Clearing a held bit, once nothing is installed at its address. */
  lemma ReleaseMove(bits: seq<bool>, cs: seq<Claim>, net: Net, c: nat, a: nat)
    requires LedgerInv(bits, cs, net) && c < |cs|
    requires cs[c] == Held(a, false, false, false)
    ensures InUse(bits, a)
    ensures LedgerInv(bits[a - 1 := false], cs[c := Free], net)
  {
    var bits' := bits[a - 1 := false];
    assert forall b: nat :: InUse(bits', b) <==> InUse(bits, b) && b != a;
    forall b: nat | InUse(bits', b)
      ensures HasHolder(cs[c := Free], b)
    {
      HolderStays(cs, c, Free, b);
    }
    assert Matches(net, cs[c]);
  }

  lemma AcceptMove(bits: seq<bool>, cs: seq<Claim>, net: Net)
    requires LedgerInv(bits, cs, net)
    ensures LedgerInv(bits, cs + [Free], net)
  {
    forall a: nat | InUse(bits, a)
      ensures HasHolder(cs + [Free], a)
    {
      var d :| 0 <= d < |cs| && HoldsAddr(cs[d], a);
      assert HoldsAddr((cs + [Free])[d], a);
    }
  }

  // ------------------------------------------------------------- every step

  /** A resource after the call at `st`: set by its own add, cleared by its own delete. */
  function Moved(has: bool, st: Stage, effect: bool, add: Stage, delete: Stage): bool {
    if effect && st == add then true else if effect && st == delete then false else has
  }

  lemma NetMoves(net: Net, a: nat, st: Stage, eth: bool, rule: bool, peer: bool)
    requires Matches(net, Held(a, eth, rule, peer))
    requires (st == AddingEth ==> !eth) && (st == AddingRule ==> !rule) && (st == AddingPeer ==> !peer)
    ensures Matches(net.After(Some(a), st), Held(a, Moved(eth, st, true, AddingEth, DeletingEth),
                                                    Moved(rule, st, true, AddingRule, DeletingRule),
                                                    Moved(peer, st, true, AddingPeer, RemovingPeer)))
  {
    match st {
      case AddingEth =>
      case AddingRule =>
      case AddingPeer =>
      case RemovingPeer =>
      case DeletingRule =>
      case DeletingEth =>
      case _ =>
    }
  }

  lemma NetElsewhere(net: Net, a: nat, st: Stage, b: nat)
    requires b != a
    ensures SameAt(net, net.After(Some(a), st), b)
  {
    match st {
      case AddingEth =>
      case AddingRule =>
      case AddingPeer =>
      case RemovingPeer =>
      case DeletingRule =>
      case DeletingEth =>
      case _ =>
    }
  }

  lemma ProgressMoves(st: Stage, ok: bool, effect: bool, add: Stage, delete: Stage)
    requires Fallible(st) && (ok ==> effect) && Fallible(add) && Rank(add) < Rank(delete) <= Rank(DeletingEth)
    requires GuestOnly(add) && GuestOnly(delete)
    ensures Moved(Between(st, add, delete), st, effect, add, delete)
            == if ok then Between(Next(true, st), add, delete) else LeftBehind(st, effect, add, delete)
  {
    RankNext(st);
    RankInjective(st, add);
    RankInjective(st, delete);
  }

  lemma RankNext(st: Stage)
    requires st != Finished
    ensures Rank(Next(true, st)) == Rank(st) + 1
  {
  }

  lemma RankInjective(st: Stage, st': Stage)
    ensures Rank(st) == Rank(st') ==> st == st'
  {
  }

  /** A call moves the network exactly as the task's progress says, whether it
      succeeds, fails, or fails after taking effect. */
  lemma CallMatchesProgress(net: Net, a: nat, st: Stage, ok: bool, effect: bool)
    requires Fallible(st) && (ok ==> effect)
    requires Matches(net, ClaimOf(Session(Some(a), st)))
    ensures var net' := if effect then net.After(Some(a), st) else net;
            && HoldsAddr(ClaimOf(AfterCall(Some(a), st, ok, effect)), a)
            && Matches(net', ClaimOf(AfterCall(Some(a), st, ok, effect)))
            && forall b: nat :: b == a || SameAt(net, net', b)
  {
    var k := ClaimOf(Session(Some(a), st));
    ProgressMoves(st, ok, effect, AddingEth, DeletingEth);
    ProgressMoves(st, ok, effect, AddingRule, DeletingRule);
    ProgressMoves(st, ok, effect, AddingPeer, RemovingPeer);
    RankNext(st);
    assert ClaimOf(AfterCall(Some(a), st, ok, effect))
           == Held(a, Moved(k.eth, st, effect, AddingEth, DeletingEth),
                   Moved(k.rule, st, effect, AddingRule, DeletingRule),
                   Moved(k.peer, st, effect, AddingPeer, RemovingPeer));
    NetMoves(net, a, st, k.eth, k.rule, k.peer);
    forall b: nat
      ensures b == a || SameAt(net, net.After(Some(a), st), b)
    {
      if b != a {
        NetElsewhere(net, a, st, b);
      }
    }
  }

  lemma CallKeepsInv(s: State, c: nat, ok: bool, effect: bool)
    requires Inv(s) && Enabled(s, Call(c, ok, effect))
    ensures Inv(ApplyCall(s, c, ok, effect))
  {
    var s' := ApplyCall(s, c, ok, effect);
    var Session(addr, st) := s.conns[c].phase;
    var k := ClaimOf(s'.conns[c].phase);
    assert Claims(s') == Claims(s)[c := k];
    if addr.Some? {
      assert Matches(s.net, Claims(s)[c]);
      CallMatchesProgress(s.net, addr.value, st, ok, effect);
      assert forall a: nat :: HoldsAddr(k, a) || SameAt(s.net, s'.net, a);
    } else {
      assert forall a: nat :: SameAt(s.net, s'.net, a);
    }
    KeepMove(s.bits, Claims(s), s.net, c, k, s'.net);
  }

  /** A connection's step that leaves bits, network and claim alone. */
  lemma QuietStep(s: State, c: nat, s': State)
    requires Inv(s) && c < |s.conns|
    requires s'.bits == s.bits && s'.net == s.net && |s'.conns| == |s.conns|
    requires forall d :: 0 <= d < |s.conns| && d != c ==> s'.conns[d] == s.conns[d]
    requires ClaimOf(s'.conns[c].phase) == ClaimOf(s.conns[c].phase)
    requires WellShaped(|s.bits|, s'.conns[c].phase)
    ensures Inv(s')
  {
    assert Claims(s') == Claims(s);
  }

  lemma ProbeKeepsInv(s: State, c: nat)
    requires Inv(s) && Enabled(s, Probe(c))
    ensures Inv(Apply(s, Probe(c)))
  {
    var s' := Apply(s, Probe(c));
    var i := s.conns[c].phase.next;
    if s.bits[i] {
      assert s'.bits == s.bits;
      QuietStep(s, c, s');
    } else {
      assert Claims(s') == Claims(s)[c := Held(i + 1, false, false, false)];
      TakeMove(s.bits, Claims(s), s.net, c, i);
    }
  }

  lemma RelinquishingClaim(a: nat)
    ensures ClaimOf(Session(Some(a), Relinquishing)) == Held(a, false, false, false)
    ensures ClaimOf(Session(Some(a), Finished)) == Free
  {
  }

  lemma ReleaseKeepsInv(s: State, c: nat)
    requires Inv(s) && Enabled(s, Release(c))
    ensures Inv(Apply(s, Release(c)))
  {
    var s' := Apply(s, Release(c));
    var a := s.conns[c].phase.session.value;
    RelinquishingClaim(a);
    assert Claims(s') == Claims(s)[c := Free];
    ReleaseMove(s.bits, Claims(s), s.net, c, a);
  }

  lemma AcceptKeepsInv(s: State, input: seq<byte>)
    requires Inv(s) && Enabled(s, Accept(input))
    ensures Inv(Apply(s, Accept(input)))
  {
    var s' := Apply(s, Accept(input));
    assert Claims(s') == Claims(s) + [Free];
    AcceptMove(s.bits, Claims(s), s.net);
  }

  /** Steps of one connection that neither touch the bits nor call out. */
  predicate IsQuiet(e: Event) {
    e.Parse? || e.GiveUp? || e.Spawn? || e.Wake? || e.Stop?
  }

  lemma ParsedClaim(input: seq<byte>)
    ensures ClaimOf(ParsedPhase(input)) == Free && forall n: nat :: WellShaped(n, ParsedPhase(input))
  {
  }

  lemma NextClaim(addr: Option<nat>, st: Stage)
    requires st.Waiting? || st.Stopping?
    ensures ClaimOf(Session(addr, Next(addr.Some?, st))) == ClaimOf(Session(addr, st))
    ensures forall n: nat :: WellShaped(n, Session(addr, Next(addr.Some?, st)))
  {
  }

  lemma QuietClaim(s: State, e: Event)
    requires Enabled(s, e) && IsQuiet(e)
    ensures ClaimOf(Apply(s, e).conns[e.c].phase) == ClaimOf(s.conns[e.c].phase)
    ensures WellShaped(|s.bits|, Apply(s, e).conns[e.c].phase)
  {
    var conn := s.conns[e.c];
    match e {
      case Parse(_) => ParsedClaim(conn.input);
      case Wake(_, _) => NextClaim(conn.phase.session, Waiting);
      case Stop(_, _, _) => NextClaim(conn.phase.session, Stopping);
      case GiveUp(_) =>
      case Spawn(_) =>
    }
  }

  lemma QuietKeepsInv(s: State, e: Event)
    requires Inv(s) && Enabled(s, e) && IsQuiet(e)
    ensures Inv(Apply(s, e))
  {
    QuietClaim(s, e);
    QuietStep(s, e.c, Apply(s, e));
  }

  /** The invariant is inductive. */
  lemma StepKeepsInv(s: State, e: Event)
    requires Inv(s) && Enabled(s, e)
    ensures Inv(Apply(s, e))
  {
    if IsQuiet(e) {
      QuietKeepsInv(s, e);
    } else if e.Accept? {
      AcceptKeepsInv(s, e.input);
    } else if e.Probe? {
      ProbeKeepsInv(s, e.c);
    } else if e.Call? {
      CallKeepsInv(s, e.c, e.ok, e.effect);
    } else if e.Release? {
      ReleaseKeepsInv(s, e.c);
    } else {
      assert Claims(Apply(s, e)) == Claims(s);
    }
  }
}
