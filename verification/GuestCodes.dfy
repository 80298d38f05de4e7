/** The expiring set of guest codes as a transition system. Inserting starts a timer
    that nothing cancels; redeeming, wiping and timers interleave freely. */
module GuestCodes {
  import opened Basics

  type Code = u32

  /** A timer is created by the insertion, begins to sleep once its task is spawned,
      and removes its code from the set when it fires. */
  datatype Status = Starting | Sleeping | Fired
  datatype Timer = Timer(code: Code, status: Status)

  /** Timers are numbered by insertion. */
  datatype State = State(codes: set<Code>, timers: seq<Timer>)

  datatype Event =
    | Insert(code: Code)        // under the lock
    | StartTimer(id: nat)       // the spawn that follows
    | Fire(id: nat)             // the sleep is over: remove the code
    | Redeem(code: Code)
    | Wipe

  const INIT := State({}, [])

  predicate Enabled(s: State, e: Event) {
    match e
    case StartTimer(id) => id < |s.timers| && s.timers[id].status == Starting
    case Fire(id) => id < |s.timers| && s.timers[id].status == Sleeping
    case _ => true
  }

  function Apply(s: State, e: Event): State
    requires Enabled(s, e)
  {
    match e
    case Insert(code) => State(s.codes + {code}, s.timers + [Timer(code, Starting)])
    case StartTimer(id) => s.(timers := s.timers[id := s.timers[id].(status := Sleeping)])
    case Fire(id) => State(s.codes - {s.timers[id].code}, s.timers[id := s.timers[id].(status := Fired)])
    case Redeem(code) => s.(codes := s.codes - {code})
    case Wipe => s.(codes := {})
  }

  /** The redemption is granted a session. */
  predicate Granted(s: State, e: Event) {
    e.Redeem? && e.code in s.codes
  }

  // ------------------------------------------------------------- the reference

  /** The intended meaning: each valid code with its latest insertion, whose expiry
      alone may end it. */
  type Ledger = map<Code, nat>

  function Intended(m: Ledger, s: State, e: Event): Ledger
    requires Enabled(s, e)
  {
    match e
    case Insert(code) => m[code := |s.timers|]
    case StartTimer(_) => m
    case Fire(id) =>
      var code := s.timers[id].code;
      if code in m && m[code] == id then m - {code} else m
    case Redeem(code) => m - {code}
    case Wipe => map[]
  }

  /** A run of the set beside its ledger. */
  datatype Run = Run(states: seq<State>, ledgers: seq<Ledger>, events: seq<Event>)

  ghost predicate IsRun(r: Run) {
    && |r.states| == |r.ledgers| == |r.events| + 1
    && r.states[0] == INIT
    && r.ledgers[0] == map[]
    && forall k :: 0 <= k < |r.events| ==>
         && Enabled(r.states[k], r.events[k])
         && r.states[k + 1] == Apply(r.states[k], r.events[k])
         && r.ledgers[k + 1] == Intended(r.ledgers[k], r.states[k], r.events[k])
  }
}

module GuestCodeTheorems {
  import opened GuestCodes

  // ------------------------------------------------------------- refinement

  /** Timer `id` belongs to the latest insertion of `code` and has not fired. */
  ghost predicate LatestPending(s: State, code: Code, id: nat) {
    && id < |s.timers|
    && s.timers[id].code == code
    && s.timers[id].status != Fired
    && forall later :: id < later < |s.timers| ==> s.timers[later].code != code
  }

  ghost predicate Inv(s: State, m: Ledger) {
    && (forall code :: code in s.codes ==> code in m)
    && (forall code :: code in m ==> LatestPending(s, code, m[code]))
  }

  lemma LatestStays(s: State, m: Ledger, e: Event, code: Code)
    requires Inv(s, m) && Enabled(s, e) && code in Intended(m, s, e)
    ensures LatestPending(Apply(s, e), code, Intended(m, s, e)[code])
  {
    if e != Insert(code) {
      assert LatestPending(s, code, m[code]);
    }
  }

  lemma StepKeepsInv(s: State, m: Ledger, e: Event)
    requires Inv(s, m) && Enabled(s, e)
    ensures Inv(Apply(s, e), Intended(m, s, e))
  {
    forall code | code in Intended(m, s, e)
      ensures LatestPending(Apply(s, e), code, Intended(m, s, e)[code])
    {
      LatestStays(s, m, e, code);
    }
  }

  /** Under every interleaving the set holds only codes the ledger holds, and each
      still has the timer of its latest insertion pending: no code outlives it. */
  lemma {:induction false} AlwaysWithinIntent(r: Run, k: nat)
    requires IsRun(r) && k < |r.states|
    ensures Inv(r.states[k], r.ledgers[k])
    ensures r.states[k].codes <= r.ledgers[k].Keys
    ensures forall code :: code in r.states[k].codes ==> LatestPending(r.states[k], code, r.ledgers[k][code])
  {
    if k > 0 {
      AlwaysWithinIntent(r, k - 1);
      StepKeepsInv(r.states[k - 1], r.ledgers[k - 1], r.events[k - 1]);
    }
  }

  /** An old timer fires on a code whose later insertion is still valid. */
  predicate Premature(s: State, m: Ledger, e: Event) {
    e.Fire? && e.id < |s.timers| && s.timers[e.id].code in m && m[s.timers[e.id].code] != e.id
  }

  ghost predicate ExactAt(r: Run, k: nat) {
    k < |r.states| == |r.ledgers| && r.states[k].codes == r.ledgers[k].Keys
  }

  ghost predicate PrematureAt(r: Run, k: nat) {
    k < |r.events| < |r.states| == |r.ledgers| && Premature(r.states[k], r.ledgers[k], r.events[k])
  }

  lemma StepExact(s: State, m: Ledger, e: Event)
    requires Inv(s, m) && Enabled(s, e) && s.codes == m.Keys
    ensures Apply(s, e).codes == Intended(m, s, e).Keys <==> !Premature(s, m, e)
  {
    if Premature(s, m, e) {
      var code := s.timers[e.id].code;
      assert code in Intended(m, s, e) && code !in Apply(s, e).codes;
    }
  }

  lemma {:induction false} ExactWhileNotPremature(r: Run, k: nat)
    requires IsRun(r) && k < |r.states|
    requires forall j: nat :: j < k ==> !PrematureAt(r, j)
    ensures ExactAt(r, k)
  {
    if k > 0 {
      ExactWhileNotPremature(r, k - 1);
      AlwaysWithinIntent(r, k - 1);
      assert !PrematureAt(r, k - 1);
      StepExact(r.states[k - 1], r.ledgers[k - 1], r.events[k - 1]);
    }
  }

  /** The set means what it should throughout a run exactly when no timer of an
      earlier insertion fires on a code that is valid again. */
  lemma {:induction false} ExactlyWhenNotPremature(r: Run)
    requires IsRun(r)
    ensures (forall k: nat :: k < |r.states| ==> ExactAt(r, k))
            <==> (forall k: nat :: k < |r.events| ==> !PrematureAt(r, k))
  {
    if forall k: nat :: k < |r.states| ==> ExactAt(r, k) {
      forall k: nat | k < |r.events|
        ensures !PrematureAt(r, k)
      {
        AlwaysWithinIntent(r, k);
        assert ExactAt(r, k) && ExactAt(r, k + 1);
        StepExact(r.states[k], r.ledgers[k], r.events[k]);
      }
    }
    if forall k: nat :: k < |r.events| ==> !PrematureAt(r, k) {
      forall k: nat | k < |r.states|
        ensures ExactAt(r, k)
      {
        ExactWhileNotPremature(r, k);
      }
    }
  }

  // ------------------------------------------------------------- freshness

  predicate PendingFor(s: State, id: nat, code: Code) {
    id < |s.timers| && s.timers[id].code == code && s.timers[id].status != Fired
  }

  /** The generated code has no timer of an earlier insertion still to fire: what
      the source calls probably correct. */
  ghost predicate FreshAt(r: Run, k: nat) {
    && k < |r.events| < |r.states|
    && (r.events[k].Insert? ==> forall id: nat :: !PendingFor(r.states[k], id, r.events[k].code))
  }

  ghost predicate OnePending(s: State) {
    forall i: nat, j: nat ::
      (i < j < |s.timers| && s.timers[i].code == s.timers[j].code) ==>
        s.timers[i].status == Fired || s.timers[j].status == Fired
  }

  lemma StepKeepsOnePending(s: State, e: Event)
    requires OnePending(s) && Enabled(s, e)
    requires e.Insert? ==> forall id: nat :: !PendingFor(s, id, e.code)
    ensures OnePending(Apply(s, e))
  {
    var s' := Apply(s, e);
    forall i: nat, j: nat | i < j < |s'.timers| && s'.timers[i].code == s'.timers[j].code
      ensures s'.timers[i].status == Fired || s'.timers[j].status == Fired
    {
      if e.Insert? && j == |s.timers| {
        assert !PendingFor(s, i, e.code);
      } else {
        assert s.timers[i].status == Fired || s.timers[j].status == Fired;
      }
    }
  }

  lemma {:induction false} FreshKeepsOnePending(r: Run, k: nat)
    requires IsRun(r) && k < |r.states|
    requires forall j: nat :: j < k ==> FreshAt(r, j)
    ensures OnePending(r.states[k])
  {
    if k > 0 {
      FreshKeepsOnePending(r, k - 1);
      assert FreshAt(r, k - 1);
      StepKeepsOnePending(r.states[k - 1], r.events[k - 1]);
    }
  }

  /** Where no code is generated again while an older timer for it is pending, the
      set is exactly the ledger's at every moment. */
  lemma {:induction false} FreshMeansExact(r: Run, k: nat)
    requires IsRun(r) && k < |r.states|
    requires forall j: nat :: j < |r.events| ==> FreshAt(r, j)
    ensures ExactAt(r, k)
  {
    forall j: nat | j < k
      ensures !PrematureAt(r, j)
    {
      FreshKeepsOnePending(r, j);
      AlwaysWithinIntent(r, j);
      var s, m, e := r.states[j], r.ledgers[j], r.events[j];
      if e.Fire? && s.timers[e.id].code in m {
        assert LatestPending(s, s.timers[e.id].code, m[s.timers[e.id].code]);
      }
    }
    ExactWhileNotPremature(r, k);
  }

  /** The hypothesis is needed: a code redeemed and generated again is cut short by
      its first timer, and its holder is turned away. */
  lemma CollisionCutsShort(code: Code) returns (r: Run)
    ensures IsRun(r) && |r.events| == 5
    ensures !ExactAt(r, 5) && code in r.ledgers[5] && code !in r.states[5].codes
  {
    var es := [Insert(code), StartTimer(0), Redeem(code), Insert(code), Fire(0)];
    var s1 := Apply(INIT, es[0]);
    var s2 := Apply(s1, es[1]);
    var s3 := Apply(s2, es[2]);
    var s4 := Apply(s3, es[3]);
    assert s4.timers == [Timer(code, Sleeping), Timer(code, Starting)];
    var s5 := Apply(s4, es[4]);
    var m1 := Intended(map[], INIT, es[0]);
    var m3 := Intended(m1, s2, es[2]);
    var m4 := Intended(m3, s3, es[3]);
    assert m4[code] == 1;
    r := Run([INIT, s1, s2, s3, s4, s5], [map[], m1, m1, m3, m4, m4], es);
  }

  // ------------------------------------------------------------- redemption

  lemma EntersByInsert(s: State, e: Event, code: Code)
    requires Enabled(s, e) && code !in s.codes && code in Apply(s, e).codes
    ensures e == Insert(code)
  {
  }

  /** A code that is absent can become redeemable only by being generated. */
  lemma {:induction false} InsertedSince(r: Run, code: Code, i: nat, j: nat) returns (k: nat)
    requires IsRun(r) && i <= j < |r.states|
    requires code !in r.states[i].codes && code in r.states[j].codes
    ensures i <= k < j && r.events[k] == Insert(code)
    decreases j - i
  {
    k := j - 1;
    if code in r.states[k].codes {
      k := InsertedSince(r, code, i, k);
    } else {
      EntersByInsert(r.states[k], r.events[k], code);
    }
  }

  /** Between two granted redemptions of a code it was generated again. */
  lemma {:induction false} SingleUse(r: Run, code: Code, i: nat, j: nat) returns (k: nat)
    requires IsRun(r) && i < j < |r.events|
    requires r.events[i] == r.events[j] == Redeem(code)
    requires Granted(r.states[i], r.events[i]) && Granted(r.states[j], r.events[j])
    ensures i < k < j && r.events[k] == Insert(code)
  {
    k := InsertedSince(r, code, i + 1, j);
  }

  /** After a wipe only codes generated since can be redeemed. */
  lemma {:induction false} WipeRevokes(r: Run, code: Code, i: nat, j: nat) returns (k: nat)
    requires IsRun(r) && i < j < |r.events|
    requires r.events[i] == Wipe && r.events[j] == Redeem(code) && Granted(r.states[j], r.events[j])
    ensures i < k < j && r.events[k] == Insert(code)
  {
    k := InsertedSince(r, code, i + 1, j);
  }

  ghost function Insertions(r: Run, code: Code, k: nat): nat
    requires k <= |r.events|
  {
    if k == 0 then 0 else Insertions(r, code, k - 1) + if r.events[k - 1] == Insert(code) then 1 else 0
  }

  ghost function Redemptions(r: Run, code: Code, k: nat): nat
    requires k <= |r.events| < |r.states|
  {
    if k == 0 then
      0
    else
      Redemptions(r, code, k - 1)
      + if r.events[k - 1] == Redeem(code) && Granted(r.states[k - 1], r.events[k - 1]) then 1 else 0
  }

  /** Step `k` takes the code out of the set if it is there: a redemption, a wipe, or a
      timer that some insertion of the code started. */
  ghost predicate Removes(r: Run, k: nat, code: Code) {
    && k < |r.events| < |r.states|
    && match r.events[k]
       case Redeem(other) => other == code
       case Wipe => true
       case Fire(id) => id < |r.states[k].timers| && r.states[k].timers[id].code == code
       case _ => false
  }

  /** The code was inserted at step `j` and nothing removed it up to moment `k`. */
  ghost predicate StillValid(r: Run, j: nat, k: nat, code: Code) {
    && j < k && j < |r.events|
    && r.events[j] == Insert(code)
    && forall i: nat :: j < i < k ==> !Removes(r, i, code)
  }

  lemma ValidStep(r: Run, k: nat, code: Code)
    requires IsRun(r) && k < |r.events|
    ensures code in r.states[k + 1].codes
            <==> r.events[k] == Insert(code) || (code in r.states[k].codes && !Removes(r, k, code))
  {
  }

  lemma SinceStep(r: Run, j: nat, k: nat, code: Code)
    requires k < |r.events| && j < k
    ensures StillValid(r, j, k + 1, code) <==> StillValid(r, j, k, code) && !Removes(r, k, code)
  {
  }

  /** A code is valid if and only if it was inserted and neither redeemed, wiped nor timed
      out since, by whichever of its timers. */
  lemma {:induction false} ValidExactlyWhen(r: Run, code: Code, k: nat)
    requires IsRun(r) && k <= |r.events|
    ensures code in r.states[k].codes <==> exists j: nat :: StillValid(r, j, k, code)
  {
    if k > 0 {
      var p := k - 1;
      ValidExactlyWhen(r, code, p);
      ValidStep(r, p, code);
      forall j: nat | j < p
        ensures StillValid(r, j, k, code) <==> StillValid(r, j, p, code) && !Removes(r, p, code)
      {
        SinceStep(r, j, p, code);
      }
      if r.events[p] == Insert(code) {
        assert StillValid(r, p, k, code);
      }
    }
  }

  /** Sessions granted for a code, and the one it could still grant, never exceed
      its insertions. */
  lemma {:induction false} NoMoreThanInserted(r: Run, code: Code, k: nat)
    requires IsRun(r) && k <= |r.events|
    ensures Redemptions(r, code, k) + (if code in r.states[k].codes then 1 else 0) <= Insertions(r, code, k)
  {
    if k > 0 {
      NoMoreThanInserted(r, code, k - 1);
    }
  }
}

/** The set and the handlers as the server runs them. */
module GuestCodeService {
  import opened Basics
  import opened GuestCodes

  class InMemorySet {
    var codes: set<Code>
    var timers: seq<Timer>

    ghost function Contents(): State
      reads this
    {
      State(codes, timers)
    }

    constructor ()
      ensures Contents() == INIT
    {
      codes, timers := {}, [];
    }

    /** `insert_temp`: insert under the lock, then spawn the timer. Run alone, the
        two steps happen one after the other. */
    method InsertTemp(val: Code)
      modifies this
      ensures codes == old(codes) + {val} && timers == old(timers) + [Timer(val, Sleeping)]
      ensures Enabled(Apply(old(Contents()), Insert(val)), StartTimer(|old(timers)|))
      ensures Contents() == Apply(Apply(old(Contents()), Insert(val)), StartTimer(|old(timers)|))
    {
      codes := codes + {val};
      timers := timers + [Timer(val, Starting)];
      var id := |timers| - 1;
      timers := timers[id := timers[id].(status := Sleeping)];
    }

    /** `remove`: true if and only if the value was in the set. */
    method Remove(val: Code) returns (present: bool)
      modifies this
      ensures present <==> val in old(codes)
      ensures codes == old(codes) - {val} && timers == old(timers)
      ensures present <==> Granted(old(Contents()), Redeem(val))
      ensures Contents() == Apply(old(Contents()), Redeem(val))
    {
      present := val in codes;
      codes := codes - {val};
    }

    method Clear()
      modifies this
      ensures codes == {} && timers == old(timers)
      ensures Contents() == Apply(old(Contents()), Wipe)
    {
      codes := {};
    }

    /** What a timer task does when its sleep is over. */
    method TimerFires(id: nat)
      requires Enabled(Contents(), Fire(id))
      modifies this
      ensures codes == old(codes) - {old(timers)[id].code}
      ensures timers == old(timers)[id := Timer(old(timers)[id].code, Fired)]
      ensures Contents() == Apply(old(Contents()), Fire(id))
    {
      codes := codes - {timers[id].code};
      timers := timers[id := timers[id].(status := Fired)];
    }
  }

  datatype Response<+T> = Success(value: T) | Forbidden | Unauthorized | InternalServerError

  class GuestApi {
    const codes: InMemorySet

    constructor ()
      ensures fresh(codes) && codes.Contents() == INIT
    {
      codes := new InMemorySet();
    }

    /** `generate_code`, given the admin's permission and what the random source
        returned. */
    method GenerateCode(canInvite: bool, random: Option<Code>) returns (r: Response<Code>)
      modifies codes
      ensures !canInvite ==> r == Forbidden
      ensures canInvite && random.None? ==> r == InternalServerError
      ensures canInvite && random.Some? ==> r == Success(random.value) && random.value in codes.codes
      ensures r.Success? ==>
                && codes.timers == old(codes.timers) + [Timer(r.value, Sleeping)]
                && codes.codes == old(codes.codes) + {r.value}
      ensures !r.Success? ==> codes.Contents() == old(codes.Contents())
    {
      if !canInvite {
        return Forbidden;
      }
      if random.None? {
        return InternalServerError;
      }
      codes.InsertTemp(random.value);
      r := Success(random.value);
    }

    method WipeCodes()
      modifies codes
      ensures codes.codes == {} && codes.timers == old(codes.timers)
    {
      codes.Clear();
    }

    /** `redeem_code`: the code of the issued user token, or a refusal. */
    method RedeemCode(code: Code) returns (r: Response<Code>)
      modifies codes
      ensures r == if code in old(codes.codes) then Success(code) else Unauthorized
      ensures codes.codes == old(codes.codes) - {code} && codes.timers == old(codes.timers)
    {
      var valid := codes.Remove(code);
      r := if valid then Success(code) else Unauthorized;
    }
  }
}
