/**
 Generation counters of handle tables: they count 1, 2, ..., cycle and start again at 1; 0 means that the
 slot was never used. Shared by runtime_ext/uxffi/uxffi.c and runtime_ext/uxjsruntime/uxjsrt.c.
 */
module Generations {

  function NextOf(cycle: nat, g: nat): nat {
    if g >= cycle then 1 else g + 1
  }

  // The generation after n steps.
  function Steps(cycle: nat, g: nat, n: nat): nat
    decreases n
  {
    if n == 0 then g else NextOf(cycle, Steps(cycle, g, n - 1))
  }

  // n modulo cycle.
  function Wrapped(cycle: nat, n: nat): (r: nat)
    requires cycle > 0
    ensures r < cycle && (n < cycle ==> r == n)
    decreases n
  {
    if n < cycle then n else Wrapped(cycle, n - cycle)
  }

  lemma {:induction false} StepsWithinCycle(cycle: nat, g: nat, n: nat)
    requires 1 <= g <= cycle && n <= cycle
    ensures Steps(cycle, g, n) == if g + n <= cycle then g + n else g + n - cycle
    decreases n
  {
    if n > 0 {
      StepsWithinCycle(cycle, g, n - 1);
    }
  }

  lemma OneStep(cycle: nat, g: nat)
    ensures Steps(cycle, g, 1) == NextOf(cycle, g)
  {
    assert Steps(cycle, g, 0) == g;
  }

  lemma {:induction false} StepsAdd(cycle: nat, g: nat, m: nat, n: nat)
    ensures Steps(cycle, g, m + n) == Steps(cycle, Steps(cycle, g, m), n)
    decreases n
  {
    if n > 0 {
      StepsAdd(cycle, g, m, n - 1);
    }
  }

  // A used slot comes back to the same generation exactly after a multiple of the cycle.
  lemma {:induction false} SameGenerationIff(cycle: nat, g: nat, n: nat)
    requires 1 <= g <= cycle
    ensures 1 <= Steps(cycle, g, n) <= cycle
    ensures Steps(cycle, g, n) == g <==> Wrapped(cycle, n) == 0
    decreases n
  {
    if n <= cycle {
      StepsWithinCycle(cycle, g, n);
    } else {
      StepsWithinCycle(cycle, g, cycle);
      StepsAdd(cycle, g, cycle, n - cycle);
      SameGenerationIff(cycle, g, n - cycle);
    }
  }
}
