# ThorSlider slide navigation, modelled in Dafny

ThorSlider is a jQuery carousel. This project models its navigation state
machine: which slide is current, how the next index is resolved on wraparound,
the flag that is meant to let one transition run at a time, and the autoplay
interval's lifecycle. The repository ships two versions of the widget that have
grown apart. Each one is modelled as a class of its own.

- `slide_index.dfy`, module `SlideIndex`: the wraparound arithmetic. The forward
  step is shared by both variants. There are two backward steps, because dist
  wraps when `cur == 0` and src steps down while `cur > 0`. The module proves
  that n forward steps land on `(cur + n) % total` and n backward steps on
  `(cur - n) % total`. It also proves that backward steps undo forward steps,
  that `total` autoplay steps make a full cycle, and that every slide comes up
  in fewer than `total` steps.
- `intervals.dfy`, module `Intervals`: `setInterval` and `clearInterval` as an
  abstract table of scheduled handles, with no time in it. Handle `0` stands for
  an unset (`undefined`) timer field.
- `dist_slider.dfy`, module `DistSlider`: class `Slider`, with `currSlide`,
  `totalSlides`, `throttle`, `timer` and the interval table. A slider has an
  active timer exactly when `timer in clock.live`. The module also has
  `changeSlide`, `_next`, the three timer methods, `init`, and the animation
  completion callback as the explicit call `AnimationDone`. `changeSlide` writes
  its flag through `this`. Its parameter `receiverIsSlider` says which object
  `this` is. When it is false, which is the case for every call the plugin makes
  itself (jQuery handlers and `setInterval`), the write goes to `strayThrottle`.
  The guard, which reads the slider's own `throttle`, then never blocks.
- `src_slider.dfy`, module `SrcSlider`: class `Slider`, with `current`,
  `itemsCount`, `isAnimating`, `timer` and the interval table. It has `slide`,
  the two guarded arrow handlers, the unguarded autoplay tick,
  `removeTransition` (the `transitionend` handler, an explicit call here), the
  three timer methods, and the neighbour arithmetic of `updateNavImages`.

Behaviour of the code that the model keeps as it is:

- Wraparound is unconditional. The `infinite` option (dist/jquery.thorslider.js:27)
  is never read. A slider with fewer than two slides still animates: a forward
  step on one slide "moves" from 0 to 0.
- With no slides, stepping back from 0 gives -1. From there the dist rule keeps
  going down and the src rule stays at -1 (`BackwardRulesDivergeWhenEmpty`).
- dist: the throttle never blocks a call the plugin makes, so overlapping ticks
  and clicks start overlapping animations (`TicksOverlap`). Even if the flag did
  land on the slider, only `startTimer` would release it. Without autoplay that
  never runs after a move (`SliderReceiverThrottleSticks`).
- dist: a click on the active dot restarts the interval even with autoplay off
  (`ActiveDotStartsTimer`).
- src: the autoplay tick ignores `isAnimating` (`TickDuringTransition`).
- src: `slide` always schedules a new interval and never cancels the old one,
  so ticks pile up intervals (`TicksAccumulateIntervals`, `Tick`). With autoplay
  off, one click turns autoplay on (`ClickStartsAutoplay`).
- There is no pause on hover in either variant (`pauseOnHover` at
  dist/jquery.thorslider.js:39 is never read).

## Model

| member | source | states |
|---|---|---|
| `SlideIndex.Forward` | dist/jquery.thorslider.js:87-98 | for an index in range the forward step is the successor modulo `total` and stays in range; at or past the last slide it is 0 |
| `SlideIndex.BackwardOnZero` | dist/jquery.thorslider.js:99-110 | for an index in range the dist backward step is the predecessor modulo `total` and stays in range; any index other than 0 just decreases |
| `SlideIndex.BackwardOnPositive` | src/jquery.thorslider.js:159-161 | for an index in range the src backward step is the predecessor modulo `total` and stays in range; any index at or below 0 wraps to `total - 1` |
| `SlideIndex.ForwardBackwardInverse` | dist/jquery.thorslider.js:87-110 | for an index in range, a forward step then either backward step restores it, and so does the reverse order |
| `SlideIndex.BackwardRulesAgreeInRange` | src/jquery.thorslider.js:160 | the two variants' backward rules give the same index for every index in range |
| `SlideIndex.BackwardRulesDivergeWhenEmpty` | src/jquery.thorslider.js:160 | with no slides both rules go from 0 to -1; from -1 dist goes to -2 and src stays at -1 |
| `SlideIndex.AdvanceIsModular` | dist/jquery.thorslider.js:87-92 | n forward steps from an index in range reach `(cur + n) % total` |
| `SlideIndex.RetreatIsModular` | dist/jquery.thorslider.js:99-104 | n dist backward steps from an index in range reach `(cur - n) % total` |
| `SlideIndex.AdvanceStaysInRange` | dist/jquery.thorslider.js:87-92 | any number of forward steps keeps an index in range |
| `SlideIndex.AdvanceThenRetreat` | dist/jquery.thorslider.js:87-104 | n backward steps undo n forward steps |
| `SlideIndex.FullCycleReturns` | dist/jquery.thorslider.js:87-92 | `total` forward steps return to the starting slide |
| `SlideIndex.AdvanceReachesEverySlide` | dist/jquery.thorslider.js:87-92 | every slide `j` is reached after `(j - cur) % total` forward steps, which is fewer than `total` |
| `Intervals.SetInterval` | dist/jquery.thorslider.js:154 | scheduling adds exactly one new handle, distinct from every handle issued before |
| `Intervals.ClearInterval` | dist/jquery.thorslider.js:161 | clearing unschedules exactly the given handle and leaves a table without it unchanged |
| `DistSlider.DirectionOf` | dist/jquery.thorslider.js:176-178 | with no event, or an event without data, the direction is `right`; otherwise it is the event's direction |
| `DistSlider.IndicatorOf` | dist/jquery.thorslider.js:75 | with no event there is no indicator index; with a click it is the clicked element's `data-index`, if it has one |
| `DistSlider.Resolve` | dist/jquery.thorslider.js:78-112 | "already there" exactly when the indicator index is the current one; a different indicator index wins over any direction; right/top move forward and left/bottom move backward by the shared rules; an unknown direction moves to the current slide; an index in range stays in range |
| `DistSlider.OppositeDirectionsCancel` | dist/jquery.thorslider.js:87-110 | right then left, top then bottom, and the reverse pairs restore an index in range |
| `DistSlider.Slider.constructor` | dist/jquery.thorslider.js:117-151 | starts at slide 0 with no animation and the flags clear; with autoplay exactly one interval is scheduled, without it none |
| `DistSlider.Slider.InitTimer` | dist/jquery.thorslider.js:152-155 | the previous interval is cancelled and exactly one fresh interval, named by `timer`, is scheduled |
| `DistSlider.Slider.StartTimer` | dist/jquery.thorslider.js:156-159 | exactly one fresh interval is scheduled and `throttle` is false |
| `DistSlider.Slider.ClearTimer` | dist/jquery.thorslider.js:160-162 | no interval is left scheduled; `timer` keeps its stale handle |
| `DistSlider.Slider.Next` | dist/jquery.thorslider.js:73-113 | returns false exactly when `Resolve` says already there, and then leaves `currSlide`, restarts the interval and clears `throttle`; otherwise returns true, moves `currSlide` to the resolved target and touches no timer or flag |
| `DistSlider.Slider.ChangeSlide` | dist/jquery.thorslider.js:163-188 | a set `throttle` drops the call with nothing changed; otherwise the flag is written to the receiver, the timer is cleared only if the receiver is the slider and autoplay is on, and either nothing moves (timer restarted) or `currSlide` becomes the resolved target and that slide starts animating; an autoplay tick (no event) moves forward; an index in range stays in range for in-range indicator indices |
| `DistSlider.Slider.AnimationDone` | dist/jquery.thorslider.js:204-214 | the finished animation's slide becomes the shown slide and leaves the running list; with autoplay the interval is restarted and `throttle` cleared, without it neither changes |
| `DistSlider.TicksOverlap` | dist/jquery.thorslider.js:163-167 | two autoplay ticks before any completion start two animations and move the slider twice |
| `DistSlider.SliderReceiverThrottleSticks` | dist/jquery.thorslider.js:163-188 | with the flag on the slider and autoplay off, after one move every later call is dropped, even after the animation completed |
| `DistSlider.ActiveDotStartsTimer` | dist/jquery.thorslider.js:81-84 | a click on the shown slide's dot schedules an interval with autoplay off and starts no animation |
| `DistSlider.WrapAndJump` | dist/jquery.thorslider.js:80-110 | on five slides, left from slide 0 goes to 4, and a click on dot 2 goes to 2 |
| `SrcSlider.Target` | src/jquery.thorslider.js:155-161 | `next` is the successor and `prev` the predecessor modulo the item count; any other direction stays; an index in range stays in range |
| `SrcSlider.NavNeighbours` | src/jquery.thorslider.js:113-114 | the arrow neighbours are exactly where `prev` and `next` lead, and they are in range whenever `current` is |
| `SrcSlider.NextPrevCancel` | src/jquery.thorslider.js:156-161 | `next` then `prev`, and `prev` then `next`, restore an index in range |
| `SrcSlider.Slider.constructor` | src/jquery.thorslider.js:39-96 | starts at item 0, not animating; with autoplay exactly one interval is scheduled, without it none |
| `SrcSlider.Slider.InitTimer` | src/jquery.thorslider.js:97-101 | one more interval is scheduled and named by `timer`; none is cancelled |
| `SrcSlider.Slider.StartTimer` | src/jquery.thorslider.js:102-104 | the same as `initTimer`: one more interval, none cancelled |
| `SrcSlider.Slider.ClearTimer` | src/jquery.thorslider.js:105-107 | only the interval `timer` names is cancelled |
| `SrcSlider.Slider.Slide` | src/jquery.thorslider.js:146-213 | `isAnimating` becomes true, `current` moves to `Target(dir, …)` and stays in range, and one more interval is scheduled whatever the autoplay setting |
| `SrcSlider.Slider.PrevClick` | src/jquery.thorslider.js:121-127 | while animating nothing changes; otherwise the latest interval is replaced by a newly issued one and the slider steps back |
| `SrcSlider.Slider.NextClick` | src/jquery.thorslider.js:129-135 | while animating nothing changes; otherwise the latest interval is replaced by a newly issued one and the slider steps forward |
| `SrcSlider.Slider.Tick` | src/jquery.thorslider.js:98-100 | a tick steps forward and sets `isAnimating` whatever its value was, and schedules one more interval, which `timer` now names; none is cancelled |
| `SrcSlider.Slider.RemoveTransition` | src/jquery.thorslider.js:142-145 | afterwards no transition is marked as running |
| `SrcSlider.TickDuringTransition` | src/jquery.thorslider.js:98-135 | a tick during a transition moves the slider while an arrow click is ignored, leaving two intervals scheduled |
| `SrcSlider.ClickStartsAutoplay` | src/jquery.thorslider.js:146-209 | with autoplay off, one arrow click leaves an interval scheduled |
| `SrcSlider.TicksAccumulateIntervals` | src/jquery.thorslider.js:97-104 | three autoplay ticks on three items leave four intervals scheduled and the slider back at item 0 |
| `SrcSlider.ClickAfterTickCancelsNewest` | src/jquery.thorslider.js:98-135 | after a tick, an arrow click cancels only the interval the tick scheduled, so the one `init` scheduled keeps running |

## Left out

- Markup for dots and arrows, CSS classes and positions, background images of the
  arrows, jQuery `animate` and its easing and duration: presentation only. Of
  `updateNavImages` only the index arithmetic is kept.
- jQuery event binding and the `jQuery.fn` plugin wrapper: library plumbing. The
  events reach the model as calls: `ChangeSlide` with a `Click` or `NoEvent` in
  dist; `PrevClick`, `NextClick` and `Tick` in src.
- Modernizr detection of CSS transitions and the `transitionend` event name: a
  foreign call. `RemoveTransition` may be called at any time and any number of
  times, as `transitionend` events may arrive.
- Real time: `setInterval`, `setTimeout` and animation durations are only the
  table of scheduled handles and explicit completion calls. A tick in src may come
  from any scheduled interval, leaked ones included.
- The deferred `setTimeout(…, 0)` body of src `slide`: it changes only presentation.
  The `"use strict"` at src/jquery.thorslider.js:5 makes the whole file strict. So
  `isAnimating = false` (src/jquery.thorslider.js:197), which runs only without CSS
  transitions, throws a ReferenceError unless the page declares that global. It
  never clears `_.isAnimating`, so it is not modelled as clearing the guard. The
  throw skips the rest of the callback (`updateNavImages`), which is presentation
  only.
- The module-level `self` (dist) and `_` (src), which alias the last slider
  constructed: the model has one slider per object.
- DistSlider.Slider.constructor: always sets `totalSlides`. The code sets it only
  when dots or arrows are enabled and leaves it undefined otherwise.
- JavaScript numbers: indices are unbounded integers and `data-index` is taken to
  be an integer. Arithmetic on `undefined` or `NaN` is not modelled.
- DistSlider.Slider.ChangeSlide: a receiver other than the slider is taken to have
  no `timer` property, which holds for the clicked button and for the window.
- DistSlider.Slider.AnimationDone: completions may arrive in any order. The model
  does not capture jQuery's per-element animation queue.
- Options that the code never reads (`infinite`, `fade`, `touch`, `pauseOnHover`,
  `easing`): there is no non-wrapping mode and no pause on hover to model.
