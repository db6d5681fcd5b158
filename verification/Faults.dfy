/** How a modelled system call ends. */
module Faults {
  /** It works, it fails without effect, or it takes effect and still reports a failure. */
  datatype Fault = Works | FailsBefore | FailsAfter

  /** How many of the first calls do not simply work. */
  ghost function FaultsUpTo(schedule: nat -> Fault, n: nat): nat {
    if n == 0 then 0 else FaultsUpTo(schedule, n - 1) + if schedule(n - 1) == Works then 0 else 1
  }

  /** The calls from one time to another all work. */
  ghost predicate Quiet(schedule: nat -> Fault, from: nat, to: nat) {
    forall k :: from <= k < to ==> schedule(k) == Works
  }

  /** Calls work exactly as long as no fault is counted. */
  lemma {:induction false} QuietIsFaultless(schedule: nat -> Fault, from: nat, to: nat)
    requires from <= to
    ensures FaultsUpTo(schedule, from) <= FaultsUpTo(schedule, to)
    ensures Quiet(schedule, from, to) <==> FaultsUpTo(schedule, from) == FaultsUpTo(schedule, to)
  {
    if from < to {
      QuietIsFaultless(schedule, from, to - 1);
    }
  }
}
