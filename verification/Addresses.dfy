/** `AddressManager`: a fixed array of flags, scanned by `take_next_addr` and cleared
    by `relinquish_addr`. One `fetch_or` is one step of the daemon's transition
    system; here the methods run without interleaving. */
module Addresses {
  import opened Basics

  /** How `relinquish_addr` ends: its assertion admits one address too many, on
      which the array index then panics. */
  datatype Relinquished = Done | AssertionPanic | IndexPanic

  class AddressManager {
    const used: array<bool>

    /** Keeps `MAX_INSTANCES as u8 + 1` from overflowing. */
    ghost predicate Valid() {
      1 <= used.Length <= 254
    }

    constructor (maxInstances: nat)
      requires 1 <= maxInstances <= 254
      ensures Valid() && fresh(used) && used.Length == maxInstances
      ensures forall i :: 0 <= i < maxInstances ==> !used[i]
    {
      var flags := new bool[maxInstances];
      for i := 0 to maxInstances
        invariant forall j :: 0 <= j < i ==> !flags[j]
      {
        flags[i] := false;
      }
      used := flags;
    }

    method FetchOr(i: nat) returns (inUse: bool)
      requires i < used.Length
      modifies used
      ensures inUse == old(used[i]) && used[..] == old(used[..])[i := true]
    {
      inUse := used[i];
      used[i] := true;
    }

    /** The least free address, or none when every flag is set. */
    method TakeNextAddr() returns (r: Option<byte>)
      requires Valid()
      modifies used
      ensures r.Some? ==>
                && 1 <= r.value <= used.Length
                && IsLeastFree(old(used[..]), 0, r.value - 1)
                && used[..] == old(used[..])[r.value - 1 := true]
      ensures r.None? ==> used[..] == old(used[..]) && AllSet(old(used[..]))
    {
      ghost var before := used[..];
      for i := 0 to used.Length
        invariant used[..] == before
        invariant forall j :: 0 <= j < i ==> before[j]
      {
        var inUse := FetchOr(i);
        if !inUse {
          return Some(i + 1);
        }
        assert before[i := true] == before;
      }
      r := None;
    }

    method RelinquishAddr(addr: byte) returns (r: Relinquished)
      requires Valid()
      modifies used
      ensures r == Done <==> 1 <= addr <= used.Length
      ensures r == IndexPanic <==> addr == used.Length + 1
      ensures used[..] == if r == Done then old(used[..])[addr - 1 := false] else old(used[..])
    {
      if !(1 <= addr <= used.Length + 1) {
        return AssertionPanic;
      }
      if addr > used.Length {
        return IndexPanic;
      }
      used[addr - 1] := false;
      r := Done;
    }
  }
}
