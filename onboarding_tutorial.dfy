/** The tutorial of `client/src/components/OnboardingTutorial.jsx`: nothing
    moves before Start; then an interval advances the steps, and at the last
    one it stops and schedules `onComplete`; Skip calls `onComplete` at once. */
module OnboardingTutorial {
  import opened Stepper

  /** The number of entries of `tutorials`. */
  const STEP_COUNT: nat := 5
  const LAST_STEP: nat := STEP_COUNT - 1

  class Tutorial {
    var currentStep: nat
    var hasStarted: bool
    /** Whether the interval is still set. */
    var timerRunning: bool
    /** The `setTimeout(onComplete, 1000)` callbacks not yet run. */
    var completionsScheduled: nat
    /** How many times `onComplete` has been called. */
    var completeCalls: nat
    /** The ticks delivered so far. */
    ghost var ticks: nat

    /** The step is the stepper's after the ticks so far; the interval only
        exists after Start; before Start nothing has moved; a completion is
        only scheduled from the last step, once the interval is gone. */
    ghost predicate Valid()
      reads this
    {
      && currentStep == After(LAST_STEP, ticks)
      && currentStep <= LAST_STEP
      && (timerRunning ==> hasStarted)
      && (!hasStarted ==> ticks == 0 && !timerRunning && completionsScheduled == 0)
      && (completionsScheduled > 0 ==> currentStep == LAST_STEP && !timerRunning)
    }

    constructor ()
      ensures Valid()
      ensures currentStep == 0 && !hasStarted && !timerRunning
      ensures completionsScheduled == 0 && completeCalls == 0
    {
      currentStep := 0;
      hasStarted := false;
      timerRunning := false;
      completionsScheduled := 0;
      completeCalls := 0;
      ticks := 0;
    }

    /** `handleStart`: the first Start sets the interval. */
    method HandleStart()
      requires Valid()
      modifies this
      ensures Valid()
      ensures hasStarted
      ensures !old(hasStarted) ==> timerRunning
      ensures old(hasStarted) ==> timerRunning == old(timerRunning)
      ensures currentStep == old(currentStep) && completionsScheduled == old(completionsScheduled)
      ensures completeCalls == old(completeCalls)
    {
      if !hasStarted {
        hasStarted := true;
        timerRunning := true;
      }
    }

    /** One interval tick: the next step while below the last; at the last
        the step stays, the interval is cleared and `onComplete` scheduled.
        Before Start there is no interval and nothing moves. */
    method Tick()
      requires Valid()
      modifies this
      ensures Valid()
      ensures !old(hasStarted) ==> currentStep == old(currentStep)
      ensures old(timerRunning) && old(currentStep) < LAST_STEP ==>
        currentStep == old(currentStep) + 1 && timerRunning && completionsScheduled == old(completionsScheduled)
      ensures old(timerRunning) && old(currentStep) == LAST_STEP ==>
        currentStep == old(currentStep) && !timerRunning && completionsScheduled == old(completionsScheduled) + 1
      ensures !old(timerRunning) ==>
        currentStep == old(currentStep) && !timerRunning && completionsScheduled == old(completionsScheduled)
      ensures hasStarted == old(hasStarted) && completeCalls == old(completeCalls)
    {
      if !timerRunning {
        return;
      }
      ticks := ticks + 1;
      if currentStep < LAST_STEP {
        currentStep := currentStep + 1;
      } else {
        timerRunning := false;
        completionsScheduled := completionsScheduled + 1;
      }
    }

    /** A scheduled completion runs: `onComplete` is called. */
    method CompletionFires()
      requires Valid()
      modifies this
      ensures Valid()
      ensures old(completionsScheduled) > 0 ==>
        completionsScheduled == old(completionsScheduled) - 1 && completeCalls == old(completeCalls) + 1
      ensures old(completionsScheduled) == 0 ==> completionsScheduled == 0 && completeCalls == old(completeCalls)
      ensures currentStep == old(currentStep) && hasStarted == old(hasStarted) && timerRunning == old(timerRunning)
    {
      if completionsScheduled > 0 {
        completionsScheduled := completionsScheduled - 1;
        completeCalls := completeCalls + 1;
      }
    }

    /** `handleSkip`: `onComplete` at once, whatever the step. */
    method HandleSkip()
      requires Valid()
      modifies this
      ensures Valid()
      ensures completeCalls == old(completeCalls) + 1
      ensures currentStep == old(currentStep) && hasStarted == old(hasStarted)
      ensures timerRunning == old(timerRunning) && completionsScheduled == old(completionsScheduled)
    {
      completeCalls := completeCalls + 1;
    }
  }

  /** Ticks before Start do nothing; after Start the tutorial reaches its last
      step, schedules the completion on the next tick and completes once. */
  method TutorialScenario()
  {
    var t := new Tutorial();
    t.Tick();
    assert t.currentStep == 0 && t.completeCalls == 0;
    t.HandleStart();
    t.Tick();
    t.Tick();
    t.Tick();
    t.Tick();
    assert t.currentStep == LAST_STEP && t.completionsScheduled == 0;
    t.Tick();
    assert !t.timerRunning && t.completionsScheduled == 1;
    t.Tick();
    t.CompletionFires();
    assert t.completeCalls == 1 && t.completionsScheduled == 0;
  }
}
