/** The callable that PatchForGosched appends to the constant pool
    (goschedFunc in patcher/patcher.go): a call counter that asks the Go
    scheduler to park the VM goroutine every `callThreshold` calls. */
module Gosched {
  import Ugo

  const Uint32Range: nat := 0x1_0000_0000
  const Uint64Range: nat := 0x1_0000_0000_0000_0000

  class GoschedFunc {
    /** Total calls, as the source's uint64 keeps it (wrapping at 2^64). */
    var numCalls: nat
    /** Calls since the last park, a uint32. */
    var counter: nat
    const callThreshold: nat
    /** runtime.NumCPU() == 1 || runtime.GOMAXPROCS(0) == 1, fixed at construction. */
    const sleep: bool
    /** Every call ever made, unbounded. */
    ghost var calls: nat

    ghost predicate Valid()
      reads this
    {
      && 0 < callThreshold < Uint32Range
      && numCalls == calls % Uint64Range
      && counter == calls % callThreshold
    }

    constructor (callThreshold: nat, sleep: bool)
      requires 0 < callThreshold < Uint32Range
      ensures Valid() && calls == 0 && numCalls == 0 && counter == 0
      ensures this.callThreshold == callThreshold && this.sleep == sleep
    {
      this.callThreshold := callThreshold;
      this.sleep := sleep;
      numCalls, counter, calls := 0, 0, 0;
    }

    /** The name String and TypeName report. */
    function String(): (s: string)
      ensures |s| == 9 && s[0] == '<' && s[|s| - 1] == '>'
    {
      "<gosched>"
    }

    /** CallEx: counts the call and reports `parked` when the counter reached
        the threshold and was reset, the point where the source calls
        runtime.Gosched (and time.Sleep when `sleep` is set). */
    method CallEx() returns (parked: bool)
      requires Valid()
      modifies this
      ensures Valid() && calls == old(calls) + 1
      ensures numCalls == (old(numCalls) + 1) % Uint64Range
      ensures parked <==> calls % callThreshold == 0
      ensures counter == if parked then 0 else old(counter) + 1
      ensures counter < Uint32Range
    {
      numCalls := (numCalls + 1) % Uint64Range;
      counter := counter + 1;
      parked := counter == callThreshold;
      if parked {
        counter := 0;
      }
      NextRemainder(calls, callThreshold);
      NextRemainder(calls, Uint64Range);
      calls := calls + 1;
    }
  }

  /** How a remainder moves when the dividend grows by one. */
  lemma NextRemainder(x: nat, m: nat)
    requires m > 0
    ensures (x + 1) % m == if x % m + 1 == m then 0 else x % m + 1
  {
    var q, r := x / m, x % m;
    if r + 1 == m {
      Ugo.DivModUnique(x + 1, m, q + 1, 0);
    } else {
      Ugo.DivModUnique(x + 1, m, q, r + 1);
    }
  }
}
