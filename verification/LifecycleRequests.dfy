/** What a connection's bytes have to do with what becomes of it. */
module LifecycleRequests {
  import opened Basics
  import opened Lifecycle
  import opened LifecycleTheorems
  import Wire
  import WireTheorems

  /** The fates a verdict on the request allows: the refusal codes, guests with an
      address, demos without. */
  predicate Fits(v: Wire.Decoded, p: Phase) {
    match p
    case Reading => true
    case Scanning(_) => v.Accepted? && v.request.mode.Guest?
    case Taken(_) => v.Accepted? && v.request.mode.Guest?
    case DemoReady => v.Accepted? && v.request.mode.Demo?
    case Session(addr, _) => v.Accepted? && (addr.Some? <==> v.request.mode.Guest?)
    case Dead(addr, _, _) => v.Accepted? && (addr.Some? <==> v.request.mode.Guest?)
    case Closed(code) =>
      match v
      case Malformed => code == Wire.RESULT_MALFORMED_REQUEST
      case InvalidPort => code == Wire.RESULT_INVALID_PORT
      case Accepted(r, _) => code == Wire.RESULT_BUSY && r.mode.Guest?
  }

  ghost predicate AllFit(s: State) {
    forall c :: 0 <= c < |s.conns| ==> Fits(Wire.DecodeRequest(s.conns[c].input), s.conns[c].phase)
  }

  lemma ParsedFits(input: seq<byte>)
    ensures Fits(Wire.DecodeRequest(input), ParsedPhase(input))
  {
  }

  lemma StepFits(s: State, e: Event, v: Wire.Decoded)
    requires Enabled(s, e) && OfConn(e) && !e.Parse? && e.c < |s.conns| == |Apply(s, e).conns|
    requires Fits(v, s.conns[e.c].phase)
    ensures Fits(v, Apply(s, e).conns[e.c].phase)
    ensures Apply(s, e).conns[e.c].input == s.conns[e.c].input
  {
  }

  lemma StepKeepsFit(s: State, e: Event)
    requires Enabled(s, e) && AllFit(s)
    ensures AllFit(Apply(s, e))
  {
    if OfConn(e) {
      OneConnSteps(s, e);
      if e.Parse? {
        ParsedFits(s.conns[e.c].input);
      } else {
        StepFits(s, e, Wire.DecodeRequest(s.conns[e.c].input));
      }
    }
  }

  lemma {:induction false} RunFits(n: nat, r: Run, k: nat)
    requires IsRun(n, r) && k < |r.states|
    ensures AllFit(r.states[k])
  {
    if k > 0 {
      RunFits(n, r, k - 1);
      StepKeepsFit(r.states[k - 1], r.events[k - 1]);
    }
  }

  /** Addresses go only to bytes that start with a well-sized guest request. */
  lemma {:induction false} OwnersSentGuestRequests(n: nat, r: Run, k: nat, c: nat, a: nat)
    requires IsRun(n, r) && k < |r.states| && c < |r.states[k].conns| && Owns(r.states[k].conns[c].phase, a)
    ensures exists q: Wire.Request, rest: seq<byte> ::
              q.mode.Guest? && Wire.WellSized(q) && r.states[k].conns[c].input == Wire.EncodeRequest(q) + rest
  {
    RunFits(n, r, k);
    var input := r.states[k].conns[c].input;
    assert Fits(Wire.DecodeRequest(input), r.states[k].conns[c].phase);
    WireTheorems.AcceptedIsCanonical(input);
  }

  /** Each refusal code is deserved: MALFORMED for bytes no header starts,
      INVALID_PORT for a header without a message, BUSY only for a guest request. */
  lemma {:induction false} RefusalsAreDeserved(n: nat, r: Run, k: nat, c: nat)
    requires IsRun(n, r) && k < |r.states| && c < |r.states[k].conns| && r.states[k].conns[c].phase.Closed?
    ensures var input, code := r.states[k].conns[c].input, r.states[k].conns[c].phase.code;
            && (code == 1 <==> Wire.DecodeRequest(input) == Wire.Malformed)
            && (code == 2 <==> Wire.DecodeRequest(input) == Wire.InvalidPort)
            && (code == 3 <==>
                  Wire.DecodeRequest(input).Accepted? && Wire.DecodeRequest(input).request.mode.Guest?)
            && 1 <= code <= 3
  {
    RunFits(n, r, k);
    assert Fits(Wire.DecodeRequest(r.states[k].conns[c].input), r.states[k].conns[c].phase);
  }
}
