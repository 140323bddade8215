/** The src variant of ThorSlider (src/jquery.thorslider.js).

    The slider owns the index `current` of the shown item, an `isAnimating` flag and
    an autoplay interval.  The two arrow handlers move only while no transition is
    running; the autoplay callback moves unconditionally.  Every move sets the flag,
    and the `transitionend` handler `removeTransition` is the only code that clears
    it.  Every move also schedules a new interval without cancelling the previous
    one, so the handle in `timer` names only the latest of the scheduled intervals.
 */
module SrcSlider {
  import opened SlideIndex
  import opened Intervals

  /** Where `slide(dir)` takes the index: forward for `"next"`, backward (steps down
      while positive, else wraps) for `"prev"`, nowhere for anything else. */
  function Target(dir: string, cur: int, total: int): (r: int)
    ensures 0 <= cur < total ==> 0 <= r < total
    ensures dir != "next" && dir != "prev" ==> r == cur
    ensures dir == "next" && 0 <= cur < total ==> r == (cur + 1) % total
    ensures dir == "prev" && 0 <= cur < total ==> r == (cur - 1) % total
  {
    if dir == "next" then Forward(cur, total)
    else if dir == "prev" then BackwardOnPositive(cur, total)
    else cur
  }

  /** The neighbour indices `updateNavImages` shows on the prev and next arrows.
      They are exactly where the two arrows lead, so they are in range whenever
      `current` is. */
  function NavNeighbours(current: int, itemsCount: int): (r: (int, int))
    ensures r.0 == Target("prev", current, itemsCount)
    ensures r.1 == Target("next", current, itemsCount)
    ensures 0 <= current < itemsCount ==> 0 <= r.0 < itemsCount && 0 <= r.1 < itemsCount
  {
    (if current > 0 then current - 1 else itemsCount - 1,
     if current < itemsCount - 1 then current + 1 else 0)
  }

  /** `next` then `prev`, and `prev` then `next`, come back to the same item. */
  lemma NextPrevCancel(cur: int, total: int)
    requires 0 <= cur < total
    ensures Target("prev", Target("next", cur, total), total) == cur
    ensures Target("next", Target("prev", cur, total), total) == cur
  {
    ForwardBackwardInverse(cur, total);
  }

  class Slider {
    /** `settings.autoplay` */
    const autoplay: bool
    /** `itemsCount`: the number of content items. */
    const itemsCount: int
    /** `current`: the index of the shown item and slide. */
    var current: int
    /** `isAnimating`: a transition was started and no `transitionend` has arrived. */
    var isAnimating: bool
    /** `timer`: the latest interval handle, `0` while it was never set. */
    var timer: nat
    /** The intervals this slider scheduled, including those no handle names any more. */
    var clock: Table

    /** `timer` is the handle issued last. */
    ghost predicate Valid()
      reads this
    {
      Intervals.Valid(clock) && timer == clock.issued
    }

    /** The current index names one of the items. */
    predicate InRange()
      reads this
    {
      0 <= current < itemsCount
    }

    /** The constructor and `init`: show item `0`, idle, and schedule autoplay if
        asked for. */
    constructor (itemsCount: nat, autoplay: bool)
      ensures Valid()
      ensures this.autoplay == autoplay && this.itemsCount == itemsCount
      ensures current == 0 && !isAnimating
      ensures autoplay ==> clock.live == {timer} && timer == 1
      ensures !autoplay ==> clock.live == {} && timer == 0
    {
      this.autoplay := autoplay;
      this.itemsCount := itemsCount;
      current := 0;
      isAnimating := false;
      timer := 0;
      clock := Empty();
      new;
      if autoplay {
        InitTimer();
      }
    }

    /** `initTimer`: schedule one more interval and keep its handle.  The interval
        `timer` named before stays scheduled. */
    method InitTimer()
      requires Valid()
      modifies this`timer, this`clock
      ensures Valid()
      ensures timer == old(timer) + 1 && timer !in old(clock.live)
      ensures clock.live == old(clock.live) + {timer} && |clock.live| == |old(clock.live)| + 1
    {
      var r := SetInterval(clock);
      clock, timer := r.0, r.1;
    }

    /** `startTimer`, which is `initTimer` and nothing more. */
    method StartTimer()
      requires Valid()
      modifies this`timer, this`clock
      ensures Valid()
      ensures timer == old(timer) + 1 && timer !in old(clock.live)
      ensures clock.live == old(clock.live) + {timer} && |clock.live| == |old(clock.live)| + 1
    {
      InitTimer();
    }

    /** `clearTimer`: cancel the interval `timer` names; every other one stays. */
    method ClearTimer()
      requires Valid()
      modifies this`clock
      ensures Valid()
      ensures clock.live == old(clock.live) - {timer}
    {
      if timer != 0 {
        clock := ClearInterval(clock, timer);
      }
    }

    /** `slide(dir)`: mark a transition as running, move to `Target(dir, …)` and
        schedule one more interval, whether or not autoplay is on.  The if-chain here
        is the in-place form of `Target`, and the contract checks it against that
        definition. */
    method Slide(dir: string)
      requires Valid()
      modifies this`isAnimating, this`current, this`timer, this`clock
      ensures Valid()
      ensures isAnimating
      ensures current == Target(dir, old(current), itemsCount)
      ensures old(InRange()) ==> InRange()
      ensures timer == old(timer) + 1 && timer !in old(clock.live)
      ensures clock.live == old(clock.live) + {timer} && |clock.live| == |old(clock.live)| + 1
    {
      isAnimating := true;
      if dir == "next" {
        if current < itemsCount - 1 {
          current := current + 1;
        } else {
          current := 0;
        }
      } else if dir == "prev" {
        if current > 0 {
          current := current - 1;
        } else {
          current := itemsCount - 1;
        }
      }
      StartTimer();
    }

    /** The click handler of the prev arrow: while a transition runs it does nothing;
        otherwise it cancels the latest interval and slides back. */
    method PrevClick()
      requires Valid()
      modifies this`isAnimating, this`current, this`timer, this`clock
      ensures Valid()
      ensures old(isAnimating) ==> isAnimating && current == old(current) && timer == old(timer) && clock == old(clock)
      ensures !old(isAnimating) ==>
                isAnimating && current == Target("prev", old(current), itemsCount) &&
                timer == old(timer) + 1 && timer !in old(clock.live) &&
                clock.live == old(clock.live) - {old(timer)} + {timer}
      ensures old(InRange()) ==> InRange()
    {
      if !isAnimating {
        ClearTimer();
        Slide("prev");
      }
    }

    /** The click handler of the next arrow: while a transition runs it does nothing;
        otherwise it cancels the latest interval and slides forward. */
    method NextClick()
      requires Valid()
      modifies this`isAnimating, this`current, this`timer, this`clock
      ensures Valid()
      ensures old(isAnimating) ==> isAnimating && current == old(current) && timer == old(timer) && clock == old(clock)
      ensures !old(isAnimating) ==>
                isAnimating && current == Target("next", old(current), itemsCount) &&
                timer == old(timer) + 1 && timer !in old(clock.live) &&
                clock.live == old(clock.live) - {old(timer)} + {timer}
      ensures old(InRange()) ==> InRange()
    {
      if !isAnimating {
        ClearTimer();
        Slide("next");
      }
    }

    /** One firing of any scheduled interval: `slide("next")`, with no look at
        `isAnimating`.  Nothing is cancelled, so every tick adds an interval. */
    method Tick()
      requires Valid() && clock.live != {}
      modifies this`isAnimating, this`current, this`timer, this`clock
      ensures Valid()
      ensures isAnimating && current == Target("next", old(current), itemsCount)
      ensures old(InRange()) ==> InRange()
      ensures timer == old(timer) + 1 && timer !in old(clock.live)
      ensures clock.live == old(clock.live) + {timer} && |clock.live| == |old(clock.live)| + 1
    {
      Slide("next");
    }

    /** `removeTransition`, the `transitionend` handler: the transition is over. */
    method RemoveTransition()
      modifies this`isAnimating
      ensures !isAnimating
    {
      isAnimating := false;
    }
  }

  /** An autoplay tick that arrives while a transition runs still moves the slider,
      while the arrow clicked at the same moment is ignored; the arrow click before
      it left two intervals scheduled after the tick. */
  method TickDuringTransition() returns (current: int, scheduled: nat, animating: bool)
    ensures current == 2 && scheduled == 2 && animating
  {
    var s := new Slider(3, true);
    s.NextClick();
    s.Tick();
    s.NextClick();
    current, scheduled, animating := s.current, |s.clock.live|, s.isAnimating;
  }

  /** With autoplay off, one arrow click schedules an interval all the same, and the
      clear in the next click cancels only the newest one. */
  method ClickStartsAutoplay() returns (after1: nat, after2: nat, current: int)
    ensures after1 == 1 && after2 == 1 && current == 2
  {
    var s := new Slider(3, false);
    s.NextClick();
    after1 := |s.clock.live|;
    s.RemoveTransition();
    s.NextClick();
    after2 := |s.clock.live|;
    current := s.current;
  }

  /** Ticks accumulate: with autoplay on and no clicks, after three ticks four
      intervals are scheduled and the slider has gone round once. */
  method TicksAccumulateIntervals() returns (scheduled: nat, current: int)
    ensures scheduled == 4 && current == 0
  {
    var s := new Slider(3, true);
    s.Tick();
    s.Tick();
    s.Tick();
    scheduled, current := |s.clock.live|, s.current;
  }

  /** A click after a tick cancels the interval the tick scheduled, not the one
      `init` scheduled: of handles 1, 2 and 3, handles 1 and 3 stay scheduled. */
  method ClickAfterTickCancelsNewest() returns (live: set<nat>)
    ensures live == {1, 3}
  {
    var s := new Slider(3, true);
    s.Tick();
    s.RemoveTransition();
    s.NextClick();
    live := s.clock.live;
  }
}
