/** Runs that show what the daemon can do: answer BUSY though never full, abort while
    it drains, return to `main` around a late session, leave a container running behind
    a finished one. */
module LifecycleWitnesses {
  import opened Basics
  import opened Lifecycle
  import LifecycleInvariant
  import opened LifecycleHistory
  import LifecycleContainers
  import LifecycleShutdown
  import Wire
  import WireTheorems

  /** A request of the given mode, without name or ports. */
  lemma Input(mode: Wire.Mode) returns (input: seq<byte>)
    ensures ParsedPhase(input) == if mode.Guest? then Scanning(0) else DemoReady
  {
    var r := Wire.Request(mode, [], []);
    input := Wire.EncodeRequest(r);
    WireTheorems.RoundTrip(r, []);
    assert input + [] == input;
  }

  /** A client connects and its request is read. */
  lemma Admit(s: State, input: seq<byte>) returns (r: Run)
    requires !s.ended && !s.aborted && !s.cancelled
    ensures IsPath(r) && r.states[0] == s
    ensures Last(r) == s.(conns := s.conns + [Conn(input, ParsedPhase(input))])
    ensures forall k :: 0 <= k < |r.states| ==> r.states[k].bits == s.bits
    ensures forall e :: e in r.events ==> !e.Call?
  {
    var c := |s.conns|;
    var s1 := s.(conns := s.conns + [Conn(input, Reading)]);
    var p := ParsedPhase(input);
    var s2 := s.(conns := s.conns + [Conn(input, p)]);
    assert s1.conns[c := s1.conns[c].(phase := p)] == s2.conns;
    assert Apply(s, Accept(input)) == s1 && Apply(s1, Parse(c)) == s2;
    r := Run([s, s1, s2], [Accept(input), Parse(c)]);
  }

  // ------------------------------------------------------------- BUSY though never full

  /** A path along which the slots are never all in use. */
  ghost predicate NeverFull(r: Run) {
    IsPath(r) && forall k :: 0 <= k < |r.states| ==> !AllSet(r.states[k].bits)
  }

  lemma ChainNeverFull(r: Run, q: Run)
    requires NeverFull(r) && NeverFull(q) && q.states[0] == Last(r)
    ensures NeverFull(Chain(r, q)) && Chain(r, q).states[0] == r.states[0] && Last(Chain(r, q)) == Last(q)
  {
    ChainPath(r, q);
  }

  const NO_NET := Net(multiset{}, multiset{}, multiset{})

  /** Three guest connections on a daemon with two slots, nothing else going on. */
  function Three(input: seq<byte>, p: Phase, q: Phase, t: Phase, bit0: bool, bit1: bool): State {
    State([bit0, bit1], [Conn(input, p), Conn(input, q), Conn(input, t)], NO_NET, {},
      false, false, false, false)
  }

  lemma AdmitNext(r: Run, input: seq<byte>) returns (j: Run)
    requires NeverFull(r) && ParsedPhase(input) == Scanning(0)
    requires !Last(r).ended && !Last(r).aborted && !Last(r).cancelled
    ensures NeverFull(j) && j.states[0] == r.states[0]
    ensures Last(j) == Last(r).(conns := Last(r).conns + [Conn(input, Scanning(0))])
  {
    var next := Admit(Last(r), input);
    ChainNeverFull(r, next);
    j := Chain(r, next);
  }

  lemma AdmitThree(input: seq<byte>) returns (r: Run)
    requires ParsedPhase(input) == Scanning(0)
    ensures NeverFull(r) && r.states[0] == Init(2)
    ensures Last(r) == Three(input, Scanning(0), Scanning(0), Scanning(0), false, false)
  {
    var conn := Conn(input, Scanning(0));
    r := Start();
    r := AdmitNext(r, input);
    r := AdmitNext(r, input);
    r := AdmitNext(r, input);
    assert [] + [conn] + [conn] + [conn] == [conn, conn, conn];
  }

  lemma Start() returns (r: Run)
    ensures NeverFull(r) && r.states[0] == Init(2) && Last(r) == Init(2) && Init(2).bits == [false, false]
  {
    assert !Init(2).bits[0];
    r := Run([Init(2)], []);
  }

  /** The first guest takes slot 0. */
  lemma TakeSlot(input: seq<byte>) returns (r: Run)
    ensures NeverFull(r) && r.states[0] == Three(input, Scanning(0), Scanning(0), Scanning(0), false, false)
    ensures Last(r) == Three(input, Session(Some(1), Spawned), Scanning(0), Scanning(0), true, false)
  {
    var s0 := Three(input, Scanning(0), Scanning(0), Scanning(0), false, false);
    var s1 := Three(input, Taken(1), Scanning(0), Scanning(0), true, false);
    var s2 := Three(input, Session(Some(1), Spawned), Scanning(0), Scanning(0), true, false);
    assert Apply(s0, Probe(0)) == s1 && Apply(s1, Spawn(0)) == s2;
    r := Run([s0, s1, s2], [Probe(0), Spawn(0)]);
    assert !s0.bits[1] && !s1.bits[1];
  }

  /** The others find it in use. */
  lemma Contend(input: seq<byte>) returns (r: Run)
    ensures NeverFull(r)
    ensures r.states[0] == Three(input, Session(Some(1), Spawned), Scanning(0), Scanning(0), true, false)
    ensures Last(r) == Three(input, Session(Some(1), Spawned), Scanning(1), Scanning(1), true, false)
  {
    var s2 := Three(input, Session(Some(1), Spawned), Scanning(0), Scanning(0), true, false);
    var s3 := Three(input, Session(Some(1), Spawned), Scanning(1), Scanning(0), true, false);
    var s4 := Three(input, Session(Some(1), Spawned), Scanning(1), Scanning(1), true, false);
    assert Apply(s2, Probe(1)) == s3 && Apply(s3, Probe(2)) == s4;
    r := Run([s2, s3, s4], [Probe(1), Probe(2)]);
    assert !s2.bits[1] && !s3.bits[1];
  }

  /** With slot 0 free again, the second guest takes slot 1 and the third is sent
      away. */
  lemma SendAway(s: State) returns (r: Run)
    requires !s.ended && !s.aborted && s.bits == [false, false] && |s.conns| == 3
    requires s.conns[1].phase == s.conns[2].phase == Scanning(1)
    ensures NeverFull(r) && r.states[0] == s && Last(r).bits == [false, true]
    ensures |r.events| > 0 && r.events[|r.events| - 1] == GiveUp(2)
  {
    var s1 := Apply(s, Probe(1));
    assert s1.bits == [false, true];
    var s2 := Apply(s1, Probe(2));
    assert s2.bits == [false, true];
    var s3 := Apply(s2, GiveUp(2));
    r := Run([s, s1, s2, s3], [Probe(1), Probe(2), GiveUp(2)]);
    assert !s.bits[0] && !s1.bits[0] && !s2.bits[0] && !s3.bits[0];
  }

  lemma Begin() returns (r: Run)
    ensures IsRun(2, r) && NeverFull(r)
    ensures var s := Last(r);
            && !s.ended && !s.aborted && |s.conns| == 3 && s.bits == [true, false]
            && s.conns[0].phase == Session(Some(1), Spawned)
            && s.conns[1].phase == s.conns[2].phase == Scanning(1)
  {
    var input := Input(Wire.Guest(0));
    r := AdmitThree(input);
    var take := TakeSlot(input);
    ChainNeverFull(r, take);
    r := Chain(r, take);
    var contend := Contend(input);
    ChainNeverFull(r, contend);
    r := Chain(r, contend);
  }

  lemma Complete(s: State) returns (r: Run)
    requires !s.ended && !s.aborted && |s.conns| == 3 && s.bits == [true, false]
    requires s.conns[0].phase == Session(Some(1), Spawned)
    ensures NeverFull(r) && r.states[0] == s
    ensures var t := Last(r);
            && !t.ended && !t.aborted && |t.conns| == 3 && t.bits == [false, false]
            && t.conns[1] == s.conns[1] && t.conns[2] == s.conns[2]
  {
    var t;
    r, t := CompleteSession(s, 0, 1);
    assert !s.bits[1] && !t.bits[1];
  }

  /** A guest is answered BUSY in a run in which one of the two slots was free at
      every moment. */
  lemma BusyWhileNeverFull() returns (r: Run)
    ensures IsRun(2, r) && NeverFull(r)
    ensures |r.events| > 0 && r.events[|r.events| - 1] == GiveUp(2)
  {
    r := Begin();
    var complete := Complete(Last(r));
    ChainNeverFull(r, complete);
    r := Chain(r, complete);
    var away := SendAway(Last(complete));
    ChainNeverFull(r, away);
    r := Chain(r, away);
  }

  // ------------------------------------------------------------- an abort while draining

  /** A daemon with one demo connection. */
  function One(n: nat, input: seq<byte>, p: Phase, running: set<nat>, cancelled: bool, aborted: bool): State {
    Init(n).(conns := [Conn(input, p)], running := running, cancelled := cancelled, aborted := aborted)
  }

  lemma SpawnDemo(n: nat, input: seq<byte>) returns (r: Run)
    ensures IsPath(r) && r.states[0] == One(n, input, DemoReady, {}, false, false)
    ensures Last(r) == One(n, input, Session(None, CreatingContainer), {}, false, false)
  {
    var s0 := One(n, input, DemoReady, {}, false, false);
    var s1 := One(n, input, Session(None, Spawned), {}, false, false);
    var s2 := One(n, input, Session(None, CreatingContainer), {}, false, false);
    assert Apply(s0, Spawn(0)) == s1 && Apply(s1, Call(0, true, true)) == s2;
    r := Run([s0, s1, s2], [Spawn(0), Call(0, true, true)]);
  }

  lemma StartDemo(n: nat, input: seq<byte>) returns (r: Run)
    ensures IsPath(r) && r.states[0] == One(n, input, Session(None, CreatingContainer), {}, false, false)
    ensures Last(r) == One(n, input, Session(None, Waiting), {0}, false, false)
  {
    var s0 := One(n, input, Session(None, CreatingContainer), {}, false, false);
    var s1 := One(n, input, Session(None, StartingContainer), {}, false, false);
    var s2 := One(n, input, Session(None, Waiting), {0}, false, false);
    assert Apply(s0, Call(0, true, true)) == s1 && Apply(s1, Call(0, true, true)) == s2;
    r := Run([s0, s1, s2], [Call(0, true, true), Call(0, true, true)]);
  }

  /** The demo's container is created and started. */
  lemma LaunchDemo(n: nat, input: seq<byte>) returns (r: Run)
    ensures IsPath(r) && r.states[0] == One(n, input, DemoReady, {}, false, false)
    ensures Last(r) == One(n, input, Session(None, Waiting), {0}, false, false)
  {
    r := SpawnDemo(n, input);
    var start := StartDemo(n, input);
    ChainPath(r, start);
    r := Chain(r, start);
  }

  /** The daemon is told to stop, and the shutdown of the demo cannot connect. */
  lemma CancelAndFail(n: nat, input: seq<byte>) returns (r: Run)
    ensures IsPath(r) && r.states[0] == One(n, input, Session(None, Waiting), {0}, false, false)
    ensures |r.events| == 3 && r.states[1].cancelled && LifecycleShutdown.FailsAt(r, 2, Connecting)
    ensures Last(r) == One(n, input, Dead(None, Connecting, false), {0}, true, true)
  {
    var s0 := One(n, input, Session(None, Waiting), {0}, false, false);
    var s1 := One(n, input, Session(None, Waiting), {0}, true, false);
    var s2 := One(n, input, Session(None, Connecting), {0}, true, false);
    var s3 := One(n, input, Dead(None, Connecting, false), {0}, true, true);
    assert Apply(s0, Cancel) == s1 && Apply(s1, Wake(0, Cancelled)) == s2;
    assert Apply(s2, Call(0, false, false)) == s3;
    r := Run([s0, s1, s2, s3], [Cancel, Wake(0, Cancelled), Call(0, false, false)]);
  }

  /** Draining can fail: whatever the number of slots, there is a run that is cancelled
      and then aborted by a shutdown that cannot connect, with `tracker.wait` never
      returning and the container left running. */
  lemma DrainCanAbort(n: nat) returns (r: Run, k: nat)
    ensures IsRun(n, r) && k < |r.states| && r.states[k].cancelled
    ensures Last(r).aborted && !Last(r).ended && 0 in Last(r).running
    ensures forall e :: !Enabled(Last(r), e)
  {
    var input := Input(Wire.Demo);
    r := Admit(Init(n), input);
    assert Last(r).conns == [Conn(input, DemoReady)];
    var launch := LaunchDemo(n, input);
    ChainPath(r, launch);
    r := Chain(r, launch);
    var fail := CancelAndFail(n, input);
    ChainPath(r, fail);
    k := |r.events| + 1;
    assert Chain(r, fail).states[k] == fail.states[1];
    r := Chain(r, fail);
  }

  // ------------------------------------------------------------- a session that comes late

  /** Cancelled and drained while the handler of connection 0 has its address. */
  lemma DrainAroundHandler(s: State) returns (r: Run)
    requires !s.ended && !s.aborted && !s.cancelled && !s.drained && |s.bits| > 0 && !s.bits[0]
    requires |s.conns| == 1 && s.conns[0].phase == Scanning(0)
    ensures GoesWell(r) && r.states[0] == s
    ensures !Last(r).ended && !Last(r).aborted && Last(r).drained && Last(r).net == s.net
    ensures |Last(r).conns| == 1 && Last(r).conns[0].phase == Taken(1)
  {
    var s1 := Apply(s, Probe(0));
    var s2 := Apply(s1, Cancel);
    r := Run([s, s1, s2, Apply(s2, Drained)], [Probe(0), Cancel, Drained]);
  }

  /** The handler spawns its session, which connects to Docker. */
  lemma SpawnLate(s: State) returns (r: Run)
    requires !s.ended && !s.aborted && s.drained && |s.conns| == 1 && s.conns[0].phase == Taken(1)
    ensures GoesWell(r) && r.states[0] == s
    ensures !Last(r).ended && !Last(r).aborted && Last(r).drained && Last(r).net == s.net
    ensures |Last(r).conns| == 1 && Last(r).conns[0].phase == Session(Some(1), AddingEth)
  {
    var s1 := Apply(s, Spawn(0));
    r := Run([s, s1, Apply(s1, Call(0, true, true))], [Spawn(0), Call(0, true, true)]);
  }

  /** It installs its eth42 address, and only then `main` resumes. */
  lemma InstallLate(s: State) returns (r: Run)
    requires !s.ended && !s.aborted && s.drained && |s.conns| == 1
    requires s.conns[0].phase == Session(Some(1), AddingEth)
    ensures GoesWell(r) && r.states[0] == s
    ensures Last(r).ended && Last(r).net.eth == s.net.eth + multiset{1}
  {
    var s1 := Apply(s, Call(0, true, true));
    r := Run([s, s1, Apply(s1, WaitReturns)], [Call(0, true, true), WaitReturns]);
  }

  lemma DrainThenInstall(s: State) returns (r: Run)
    requires !s.ended && !s.aborted && !s.cancelled && !s.drained && |s.bits| > 0 && !s.bits[0]
    requires |s.conns| == 1 && s.conns[0].phase == Scanning(0)
    ensures GoesWell(r) && r.states[0] == s
    ensures Last(r).ended && Last(r).net.eth == s.net.eth + multiset{1}
  {
    var drain := DrainAroundHandler(s);
    var spawn := SpawnLate(Last(drain));
    var install := InstallLate(Last(spawn));
    ChainGoesWell(drain, spawn);
    r := Chain(drain, spawn);
    ChainGoesWell(r, install);
    r := Chain(r, install);
  }

  /** A run without any failure whose `main` resumes around a session that has only
      begun to install: an empty tracker does not keep a late handler from spawning. */
  lemma LateSessionLeft(n: nat) returns (r: Run)
    requires n > 0
    ensures IsRun(n, r) && NoFailures(r, |r.events|)
    ensures Last(r).ended && Last(r).net.eth == multiset{1}
  {
    var input := Input(Wire.Guest(0));
    var admit := Admit(Init(n), input);
    assert Last(admit).conns == [Conn(input, Scanning(0))];
    var late := DrainThenInstall(Last(admit));
    ChainGoesWell(admit, late);
    r := Chain(admit, late);
  }

  // ------------------------------------------------------------- a container left behind

  /** The handler of connection 0 takes the first slot and spawns its session. */
  lemma TakeFirst(s: State) returns (r: Run)
    requires !s.ended && !s.aborted && |s.bits| > 0 && !s.bits[0]
    requires |s.conns| == 1 && s.conns[0].phase == Scanning(0)
    ensures IsPath(r) && r.states[0] == s
    ensures !Last(r).ended && !Last(r).aborted && |Last(r).conns| == 1 && Last(r).bits == s.bits[0 := true]
    ensures Last(r).conns[0].phase == Session(Some(1), Spawned)
  {
    var s1 := Apply(s, Probe(0));
    r := Run([s, s1, Apply(s1, Spawn(0))], [Probe(0), Spawn(0)]);
  }

  /** A guest takes the first address of a fresh daemon. */
  lemma FirstGuest(n: nat) returns (r: Run)
    requires n > 0
    ensures IsRun(n, r)
    ensures var s := Last(r);
            && !s.ended && !s.aborted && |s.conns| == 1 && s.bits == Init(n).bits[0 := true]
            && s.conns[0].phase == Session(Some(1), Spawned)
  {
    var input := Input(Wire.Guest(0));
    r := Admit(Init(n), input);
    assert Last(r).conns == [Conn(input, Scanning(0))];
    var take := TakeFirst(Last(r));
    ChainPath(r, take);
    r := Chain(r, take);
  }

  /** A reachable state has a guest's running container about to be stopped, and from
      there a failed stop leaves it running behind the finished session, whose address
      is free again. */
  lemma ContainerLeftBehind(n: nat) returns (r: Run)
    requires n > 0
    ensures IsRun(n, r)
    ensures var s := Last(r);
            && |s.conns| == 1 && s.conns[0].phase == Session(Some(1), Finished)
            && 0 in s.running && !LifecycleInvariant.InUse(s.bits, 1)
  {
    r := FirstGuest(n);
    var stopping, s := AdvanceTo(Last(r), 0, 1, Spawned, Stopping);
    assert Last(stopping) == s;
    ChainPath(r, stopping);
    r := Chain(r, stopping);
    var rest, s' := LifecycleContainers.StopErrorOutlives(s, 0, 1);
    assert Last(rest) == s';
    ChainPath(r, rest);
    r := Chain(r, rest);
  }
}
