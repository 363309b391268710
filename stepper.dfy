/** The interval stepper shared by the intro slides and the onboarding
    tutorial: each tick moves one step forward until the last step, where it
    stays. */
module Stepper {

  /** One tick: `prev < last ? prev + 1 : prev`. */
  function Step(i: nat, last: nat): (r: nat)
    ensures i < last ==> r == i + 1
    ensures i >= last ==> r == i
    ensures i <= last ==> r <= last
  {
    if i < last then i + 1 else i
  }

  /** The step shown after `k` ticks from the first one. */
  function After(last: nat, k: nat): nat {
    if k == 0 then 0 else Step(After(last, k - 1), last)
  }

  /** After `k` ticks the stepper shows step `min(k, last)`: it counts up one
      tick at a time, reaches the last step after `last` ticks and stays there. */
  lemma {:induction false} AfterTicks(last: nat, k: nat)
    ensures After(last, k) == if k < last then k else last
  {
    if k > 0 {
      AfterTicks(last, k - 1);
    }
  }

  /** The stepper never passes the last step. */
  lemma AfterInRange(last: nat, k: nat)
    ensures After(last, k) <= last
  {
    AfterTicks(last, k);
  }
}
