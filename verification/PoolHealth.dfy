/** How the health loop turns probes into the health flag. */
module PoolHealth {

  /** `healthy` and `consecutive_failures` of one agent. */
  datatype Health = Health(healthy: bool, failures: nat)

  /** The counter after one probe, and what the probe says of the agent. */
  function Counted(failures: nat, alive: bool): nat { if alive then 0 else failures + 1 }

  predicate Passes(failures: nat, alive: bool, threshold: nat) { alive || Counted(failures, alive) < threshold }

  /** One round of the loop: probe, store the flag, and clear the counter on recovery. */
  function Round(h: Health, alive: bool, threshold: nat): Health {
    var healthy := Passes(h.failures, alive, threshold);
    Health(healthy, if !h.healthy && healthy then 0 else Counted(h.failures, alive))
  }

  function After(probes: seq<bool>, threshold: nat): Health {
    if probes == [] then Health(true, 0)
    else Round(After(probes[..|probes| - 1], threshold), probes[|probes| - 1], threshold)
  }

  /** How many probes in a row have failed last. */
  function FailuresInARow(probes: seq<bool>): (n: nat)
    ensures n <= |probes| && forall i | |probes| - n <= i < |probes| :: !probes[i]
    ensures n < |probes| ==> probes[|probes| - n - 1]
  {
    if probes == [] || probes[|probes| - 1] then 0 else FailuresInARow(probes[..|probes| - 1]) + 1
  }

  /** An agent is unhealthy exactly when its last probes failed, at least one
      and at least `threshold` of them in a row. */
  lemma {:induction false} HealthFollowsProbes(probes: seq<bool>, threshold: nat)
    ensures var n := FailuresInARow(probes);
            After(probes, threshold) == Health(n == 0 || n < threshold, n)
  {
    if probes != [] {
      HealthFollowsProbes(probes[..|probes| - 1], threshold);
    }
  }
}
