/** The slide show of `client/src/components/IntroAnimation.jsx`: in splash
    mode an interval advances the slides, stops at the last one and marks the
    animation done; the enter button and the mute toggle. */
module IntroAnimation {
  import opened Stepper

  /** The number of entries of `slides`. */
  const SLIDE_COUNT: nat := 5
  const LAST_SLIDE: nat := SLIDE_COUNT - 1

  class Intro {
    /** The `isSplash` prop. */
    const isSplash: bool
    var currentSlide: nat
    var animationDone: bool
    /** Whether the interval is still set. */
    var timerRunning: bool
    var isMuted: bool
    /** The audio element's `muted` flag. */
    var audioMuted: bool
    /** The ticks delivered so far. */
    ghost var ticks: nat

    /** The slide is the stepper's after the ticks so far and never passes
        the last one; the timer only runs in splash mode and stops exactly
        when the animation is done, at the last slide; the audio's flag
        follows the mute state. */
    ghost predicate Valid()
      reads this
    {
      && currentSlide == After(LAST_SLIDE, ticks)
      && currentSlide <= LAST_SLIDE
      && (timerRunning ==> isSplash)
      && (animationDone ==> currentSlide == LAST_SLIDE && !timerRunning)
      && (isSplash ==> (timerRunning <==> !animationDone))
      && audioMuted == isMuted
    }

    /** Mounting: the first slide, and the interval set only in splash mode. */
    constructor (isSplash: bool)
      ensures Valid()
      ensures this.isSplash == isSplash && currentSlide == 0 && !animationDone
      ensures timerRunning == isSplash && !isMuted
    {
      this.isSplash := isSplash;
      currentSlide := 0;
      animationDone := false;
      timerRunning := isSplash;
      isMuted := false;
      audioMuted := false;
      ticks := 0;
    }

    /** One interval tick: the next slide while below the last; at the last
        the slide stays, the interval is cleared and the animation is done.
        Without a running interval no tick arrives. */
    method Tick()
      requires Valid()
      modifies this
      ensures Valid()
      ensures old(timerRunning) && old(currentSlide) < LAST_SLIDE ==>
        currentSlide == old(currentSlide) + 1 && timerRunning && !animationDone
      ensures old(timerRunning) && old(currentSlide) == LAST_SLIDE ==>
        currentSlide == old(currentSlide) && !timerRunning && animationDone
      ensures !old(timerRunning) ==>
        currentSlide == old(currentSlide) && animationDone == old(animationDone) && !timerRunning
      ensures isMuted == old(isMuted) && audioMuted == old(audioMuted)
    {
      if !timerRunning {
        return;
      }
      ticks := ticks + 1;
      if currentSlide < LAST_SLIDE {
        currentSlide := currentSlide + 1;
      } else {
        timerRunning := false;
        animationDone := true;
      }
    }

    /** The enter button: in splash mode, on the last slide or once done. */
    function ShowEnter(): (shown: bool)
      requires Valid()
      reads this
      ensures shown <==> isSplash && currentSlide == LAST_SLIDE
    {
      isSplash && (currentSlide == LAST_SLIDE || animationDone)
    }

    /** `toggleMute`: the audio and the state flip together. */
    method ToggleMute()
      requires Valid()
      modifies this
      ensures Valid()
      ensures isMuted == !old(isMuted) && audioMuted == isMuted
      ensures currentSlide == old(currentSlide) && animationDone == old(animationDone)
      ensures timerRunning == old(timerRunning)
    {
      audioMuted := !isMuted;
      isMuted := !isMuted;
    }
  }

  /** In splash mode the enter button appears after four ticks; outside
      splash mode nothing moves; muting twice restores the sound. */
  method IntroScenario()
  {
    var splash := new Intro(true);
    assert !splash.ShowEnter();
    splash.Tick();
    splash.Tick();
    splash.Tick();
    splash.Tick();
    assert splash.currentSlide == LAST_SLIDE && splash.ShowEnter();
    splash.Tick();
    assert splash.animationDone && !splash.timerRunning && splash.currentSlide == LAST_SLIDE;
    splash.ToggleMute();
    splash.ToggleMute();
    assert !splash.isMuted;
    var embedded := new Intro(false);
    embedded.Tick();
    assert embedded.currentSlide == 0 && !embedded.ShowEnter();
  }
}
