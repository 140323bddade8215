/** The dist variant of ThorSlider (dist/jquery.thorslider.js).

    The slider owns the index of the current slide, a `throttle` flag meant to let
    one animation run at a time, and an autoplay interval.  `changeSlide` is the one
    entry point: the four arrow buttons, the indicator dots and the autoplay
    interval all call it.  It consults `_next`, which resolves the new index, and
    starts a jQuery animation whose completion callback commits the shown slide and,
    with autoplay on, restarts the interval.

    `changeSlide` reads the flag from the slider but writes it through `this`, which
    is the slider only when a caller invokes it as a method of the slider.  jQuery
    handlers run it with the clicked element as `this`, and `setInterval` with the
    window, so on every call the plugin itself makes the write lands on another
    object (`strayThrottle` here) and the guard never blocks.
 */
module DistSlider {
  import opened SlideIndex
  import opened Intervals

  datatype Option<T> = None | Some(value: T)

  /** What `changeSlide` receives as its event: nothing (`setInterval` calls it
      without arguments) or a click.  `direction` is `e.data.direction`, present when
      the handler was bound with data (the four arrows); `index` is the `data-index`
      of the clicked element, which only the indicator dots carry. */
  datatype Event = NoEvent | Click(direction: Option<string>, index: Option<int>)

  /** The direction `changeSlide` hands to `_next`: the event's, or `"right"`. */
  function DirectionOf(e: Event): (d: string)
    ensures e.NoEvent? || e.direction.None? ==> d == "right"
    ensures e.Click? && e.direction.Some? ==> d == e.direction.value
  {
    match e
    case NoEvent => "right"
    case Click(direction, _) => if direction.None? then "right" else direction.value
  }

  /** The indicator index `_next` reads from the event, if there is one. */
  function IndicatorOf(e: Event): (i: Option<int>)
    ensures e.NoEvent? ==> i.None?
    ensures e.Click? ==> i == e.index
  {
    if e.Click? then e.index else None
  }

  /** What `_next` decides: the slide is already shown, or the slider moves. */
  datatype Step = AlreadyThere | MoveTo(target: int)

  /** The switch of `_next`, case by case in the code's order.  An indicator index
      wins over any direction; the two forward and the two backward directions follow
      the shared wraparound rules; an unknown direction matches no case and moves to
      the current slide itself. */
  function Resolve(index: Option<int>, dir: string, cur: int, total: int): (s: Step)
    ensures s.AlreadyThere? <==> index == Some(cur)
    ensures index.Some? && index.value != cur ==> s == MoveTo(index.value)
    ensures index.None? && (dir == "right" || dir == "top") ==> s == MoveTo(Forward(cur, total))
    ensures index.None? && (dir == "left" || dir == "bottom") ==> s == MoveTo(BackwardOnZero(cur, total))
    ensures index.None? && dir !in {"right", "top", "left", "bottom"} ==> s == MoveTo(cur)
    ensures 0 <= cur < total && (index.Some? ==> 0 <= index.value < total) && s.MoveTo? ==>
              0 <= s.target < total
  {
    if index.Some? then
      (if cur == index.value then AlreadyThere else MoveTo(index.value))
    else if dir == "right" && cur < total - 1 then MoveTo(cur + 1)
    else if dir == "right" then MoveTo(0)
    else if dir == "top" && cur < total - 1 then MoveTo(cur + 1)
    else if dir == "top" then MoveTo(0)
    else if dir == "left" && cur == 0 then MoveTo(total - 1)
    else if dir == "left" then MoveTo(cur - 1)
    else if dir == "bottom" && cur == 0 then MoveTo(total - 1)
    else if dir == "bottom" then MoveTo(cur - 1)
    else MoveTo(cur)
  }

  /** A move in one direction followed by a move in the opposite one restores the
      index, for both pairs of opposite directions. */
  lemma OppositeDirectionsCancel(cur: int, total: int)
    requires 0 <= cur < total
    ensures Resolve(None, "right", cur, total).MoveTo?
    ensures Resolve(None, "left", Resolve(None, "right", cur, total).target, total) == MoveTo(cur)
    ensures Resolve(None, "bottom", Resolve(None, "top", cur, total).target, total) == MoveTo(cur)
    ensures Resolve(None, "right", Resolve(None, "left", cur, total).target, total) == MoveTo(cur)
    ensures Resolve(None, "top", Resolve(None, "bottom", cur, total).target, total) == MoveTo(cur)
  {
    ForwardBackwardInverse(cur, total);
  }

  class Slider {
    /** `settings.autoplay` */
    const autoplay: bool
    /** The number of slides `init` counted. */
    const totalSlides: int
    /** `currSlide`: the index `_next` last resolved. */
    var currSlide: int
    /** `throttle` on the slider itself, the flag the guard reads. */
    var throttle: bool
    /** `throttle` as written on a receiver that is not the slider. */
    var strayThrottle: bool
    /** `timer`: the last interval handle, `0` while it was never set. */
    var timer: nat
    /** The intervals this slider scheduled. */
    var clock: Table
    /** The index of `$currSlide`, the slide the last completed animation showed. */
    var shownSlide: int
    /** The slides whose entry animation is running, in the order they started. */
    var animations: seq<int>

    /** At most one interval is scheduled, and it is the one `timer` names. */
    ghost predicate Valid()
      reads this
    {
      Intervals.Valid(clock) && timer <= clock.issued && clock.live <= {timer}
    }

    /** The current index names one of the slides. */
    predicate InRange()
      reads this
    {
      0 <= currSlide < totalSlides
    }

    /** The constructor and `init`: count the slides, start autoplay if asked for,
        and show slide `0`. */
    constructor (slideCount: nat, autoplay: bool)
      ensures Valid()
      ensures this.autoplay == autoplay && totalSlides == slideCount
      ensures currSlide == 0 && shownSlide == 0 && animations == []
      ensures !throttle && !strayThrottle
      ensures autoplay ==> clock.live == {timer} && timer >= 1
      ensures !autoplay ==> clock.live == {} && timer == 0
    {
      this.autoplay := autoplay;
      totalSlides := slideCount;
      timer := 0;
      clock := Empty();
      throttle := false;
      strayThrottle := false;
      animations := [];
      new;
      if autoplay {
        StartTimer();
      }
      currSlide := 0;
      shownSlide := 0;
    }

    /** `initTimer`: cancel the interval `timer` names, if any, and schedule a new one. */
    method InitTimer()
      requires Valid()
      modifies this`timer, this`clock
      ensures Valid()
      ensures clock.live == {timer} && timer == clock.issued && timer > old(clock.issued)
    {
      if timer != 0 {
        clock := ClearInterval(clock, timer);
      }
      var r := SetInterval(clock);
      clock, timer := r.0, r.1;
    }

    /** `startTimer`: exactly one fresh interval is scheduled and the throttle is
        released. */
    method StartTimer()
      requires Valid()
      modifies this`timer, this`clock, this`throttle
      ensures Valid()
      ensures clock.live == {timer} && timer == clock.issued && timer > old(clock.issued)
      ensures !throttle
    {
      InitTimer();
      throttle := false;
    }

    /** `clearTimer`: no interval is left scheduled.  `timer` keeps its stale handle. */
    method ClearTimer()
      requires Valid()
      modifies this`clock
      ensures Valid()
      ensures clock.live == {} && clock.issued == old(clock.issued)
    {
      if timer != 0 {
        clock := ClearInterval(clock, timer);
      }
    }

    /** `_next`: resolve the new index.  Already there: restart the timer, release the
        throttle and report no animation.  Otherwise: move and report an animation.
        This is the in-place form of the switch; its contract checks it against
        `Resolve`, the one definition of where the switch leads. */
    method Next(e: Event, dir: string) returns (animate: bool)
      requires Valid()
      modifies this`currSlide, this`timer, this`clock, this`throttle
      ensures Valid()
      ensures animate <==> Resolve(IndicatorOf(e), dir, old(currSlide), totalSlides).MoveTo?
      ensures animate ==> currSlide == Resolve(IndicatorOf(e), dir, old(currSlide), totalSlides).target
      ensures animate ==> throttle == old(throttle) && timer == old(timer) && clock == old(clock)
      ensures !animate ==> currSlide == old(currSlide) && !throttle
      ensures !animate ==> clock.live == {timer} && timer > old(clock.issued)
    {
      var index := IndicatorOf(e);
      if index.Some? {
        if currSlide == index.value {
          StartTimer();
          return false;
        }
        currSlide := index.value;
      } else if dir == "right" && currSlide < totalSlides - 1 {
        currSlide := currSlide + 1;
      } else if dir == "right" {
        currSlide := 0;
      } else if dir == "top" && currSlide < totalSlides - 1 {
        currSlide := currSlide + 1;
      } else if dir == "top" {
        currSlide := 0;
      } else if dir == "left" && currSlide == 0 {
        currSlide := totalSlides - 1;
      } else if dir == "left" {
        currSlide := currSlide - 1;
      } else if dir == "bottom" && currSlide == 0 {
        currSlide := totalSlides - 1;
      } else if dir == "bottom" {
        currSlide := currSlide - 1;
      }
      return true;
    }

    /** `changeSlide` run with `e` as its event; `receiverIsSlider` says whether `this`
        is the slider (a direct method call) or not (every handler and timer call the
        plugin sets up).  A set throttle drops the call.  Otherwise the flag is written
        to the receiver, the interval is cleared when the receiver is the slider and
        autoplay is on, and `_next` decides: no move, or a move whose slide starts
        animating. */
    method ChangeSlide(e: Event, receiverIsSlider: bool)
      requires Valid()
      modifies this`currSlide, this`throttle, this`strayThrottle, this`timer, this`clock, this`animations
      ensures Valid()
      ensures old(InRange()) && (IndicatorOf(e).Some? ==> 0 <= IndicatorOf(e).value < totalSlides) ==>
                InRange()
      ensures old(throttle) ==>
                currSlide == old(currSlide) && throttle && strayThrottle == old(strayThrottle) &&
                timer == old(timer) && clock == old(clock) && animations == old(animations)
      ensures !old(throttle) ==>
                strayThrottle == (old(strayThrottle) || !receiverIsSlider)
      ensures !old(throttle) && e == NoEvent ==>
                currSlide == Forward(old(currSlide), totalSlides) && animations == old(animations) + [currSlide]
      ensures !old(throttle) && Resolve(IndicatorOf(e), DirectionOf(e), old(currSlide), totalSlides).AlreadyThere? ==>
                currSlide == old(currSlide) && !throttle && animations == old(animations) &&
                clock.live == {timer} && timer > old(clock.issued)
      ensures !old(throttle) && Resolve(IndicatorOf(e), DirectionOf(e), old(currSlide), totalSlides).MoveTo? ==>
                currSlide == Resolve(IndicatorOf(e), DirectionOf(e), old(currSlide), totalSlides).target &&
                animations == old(animations) + [currSlide] &&
                throttle == receiverIsSlider && timer == old(timer) &&
                (if receiverIsSlider && autoplay then clock.live == {} && clock.issued == old(clock.issued)
                 else clock == old(clock))
    {
      if throttle {
        return;
      }
      if receiverIsSlider {
        throttle := true;
      } else {
        strayThrottle := true;
      }
      if autoplay {
        if receiverIsSlider && timer != 0 {
          ClearTimer();
        }
      }
      var dir := DirectionOf(e);
      var animate := Next(e, dir);
      if !animate {
        return;
      }
      animations := animations + [currSlide];
    }

    /** The completion callback of the animation at position `k` of `animations`
        (`_jsAnimation`): that slide becomes `$currSlide`; with autoplay on, the timer
        is restarted, which also releases the throttle. */
    method AnimationDone(k: nat)
      requires Valid() && k < |animations|
      modifies this`shownSlide, this`animations, this`timer, this`clock, this`throttle
      ensures Valid()
      ensures shownSlide == old(animations[k])
      ensures animations == old(animations[..k] + animations[k + 1..])
      ensures autoplay ==> !throttle && clock.live == {timer} && timer > old(clock.issued)
      ensures !autoplay ==> throttle == old(throttle) && timer == old(timer) && clock == old(clock)
    {
      shownSlide := animations[k];
      animations := animations[..k] + animations[k + 1..];
      if autoplay {
        StartTimer();
      }
    }
  }

  /** Two autoplay ticks before the first animation completes both start an
      animation, and the slider moves twice: the throttle does not serialise them. */
  method TicksOverlap() returns (running: nat, current: int, shown: int)
    ensures running == 2 && current == 2 && shown == 0
  {
    var s := new Slider(3, true);
    s.ChangeSlide(NoEvent, false);
    s.ChangeSlide(NoEvent, false);
    running, current, shown := |s.animations|, s.currSlide, s.shownSlide;
  }

  /** With the flag written to the slider itself the guard works, but without
      autoplay nothing releases it again: after one move every later call is dropped,
      including after the animation has completed. */
  method SliderReceiverThrottleSticks() returns (running: nat, current: int, blocked: bool)
    ensures running == 0 && current == 1 && blocked
  {
    var s := new Slider(3, false);
    s.ChangeSlide(Click(Some("right"), None), true);
    s.ChangeSlide(Click(Some("right"), None), true);
    s.AnimationDone(0);
    s.ChangeSlide(Click(Some("left"), None), true);
    running, current, blocked := |s.animations|, s.currSlide, s.throttle;
  }

  /** Clicking the dot of the shown slide starts an interval even with autoplay off,
      and starts no animation. */
  method ActiveDotStartsTimer() returns (scheduled: nat, running: nat, current: int)
    ensures scheduled == 1 && running == 0 && current == 0
  {
    var s := new Slider(3, false);
    s.ChangeSlide(Click(None, Some(0)), false);
    scheduled, running, current := |s.clock.live|, |s.animations|, s.currSlide;
  }

  /** Stepping back from the first slide wraps to the last, and an indicator click
      jumps straight to its slide. */
  method WrapAndJump() returns (afterLeft: int, afterDot: int)
    ensures afterLeft == 4 && afterDot == 2
  {
    var s := new Slider(5, false);
    s.ChangeSlide(Click(Some("left"), None), false);
    afterLeft := s.currSlide;
    s.ChangeSlide(Click(None, Some(2)), false);
    afterDot := s.currSlide;
  }
}
