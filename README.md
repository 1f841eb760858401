# Animated sprite frame selection, modelled in Dafny

This project models the animated-sprite part of the Sdlx library: `AnimatedSprite`
in `Sprite.h` and `Sprite.cpp`. An animation group is a list of images on one
sheet and a list of animations. An animation is a list of frames plus a mode.
A frame is an image index plus a duration. The mode says what happens at the end
of the frame list: Once (freeze on the last frame), Loop (start over) or PingPong
(reverse). A sprite keeps a current animation, a current frame, a direction, the
time since the animation started (`m_time`) and the time carried into the
current frame (`m_frameTime`). As time passes, the sprite steps through the
frames and shows the image of the current frame.

The model has five modules:

- `SpriteTypes` (`sprite_types.dfy`) holds the value types of `Sprite.h` as
  datatypes: `Rect`, `Image`, `Frame`, `Mode`, `Animation`, `Group` and
  `Direction`. It also holds the well-formedness a group needs: every animation
  has frames, every frame lasts a positive time, and every frame names an image
  of the group.
- `Playback` (`playback.dfy`) states the frame stepping of `AdvanceTime` on
  values. `Next` is what happens when a frame's time runs out. `Advance` is the
  carry-based stepping loop. The lemmas tie `Advance` to the animation's
  timeline: the frames shown one after another, each for its duration. They also
  give each mode in closed form.
- `Playheads` (`playhead.dfy`) has the sprite's animation state as a value
  (`Playhead`). It has one function per operation (`Play`, `AdvanceBy`,
  `SetTimeTo`, `SetFrameTo`), and the lemmas that say what those operations
  mean.
- `AnimatedSprites` (`animated_sprite.dfy`) is the class `AnimatedSprite`. Its
  fields are the fields the source updates in place. Its methods follow the
  source statement by statement. The `while` loop of `AdvanceTime` over `e`,
  `step`, `first` and `last` sits in its own method, `StepFrames`. `SetFrame`
  keeps the `for` loop that adds up `m_time`. Each method is proved to leave the
  state that the matching `Playheads` function gives. `PlayAnimation`,
  `SetTime` and `SetFrame` also leave the displayed rectangle and offsets equal
  to those of the current frame's image. `AdvanceTime` and `Service` do so only
  when the elapsed time is positive. For an elapsed time of 0 they return before
  the image is set (Sprite.cpp:217-220), and the rectangle stays as it was. Right
  after the constructor, for instance, it is the empty one.
- `Scenarios` (`scenarios.dfy`) has worked cases of the Loop and PingPong modes.

Times are exact `real` numbers. The group is a `const` value field of the
sprite, so no sprite operation can change it.

Behaviour of the code that the model reproduces as written:

- When an `AdvanceTime` call ends exactly on a frame boundary, `m_frameTime` is
  not written (Sprite.cpp:270-273). It keeps the value it had before the call,
  so the next call starts ahead of the timeline. `Playheads.StaleCarryAtBoundary`
  shows a case. A looping animation has frames of 10 and 1. Two calls of 5 land
  on frame 1 with 5 carried. A further call of 0.5 then shows frame 0, while
  `SetTime(10.5)` shows frame 1. With no boundary landing, split calls agree
  with one call (`Playheads.AdvanceByTwice`). After `SetTime(t)`, one further
  call `AdvanceTime(e)` shows the same frame, direction and time as
  `SetTime(t + e)` (`Playheads.SetTimeThenAdvance`). The carry can still differ.
  `SetTime(5)` followed by `AdvanceTime(5)` on the group above leaves 5 carried,
  while `SetTime(10)` leaves 0, so a further `AdvanceTime(0.5)` shows frame 0
  after the first and frame 1 after the second (`Playheads.SetTimeCarryDiffers`).
- The loop always ends when every duration is positive. When `e` falls short of
  the current frame, `m_frameTime` takes `e`, and subtracting the frame's
  duration makes `e` negative. A frame of duration zero can make the loop spin
  forever, for example as the last frame of a Once animation.
- A PingPong animation shows each end frame for two durations in a row. Reversing
  keeps the frame where it is (`Playback.PingPongBounces`).
- A looping animation with frames of 1, 2 and 3, advanced from its start by 7,
  shows frame 1 with nothing carried, not frame 0 with 1 carried. The 7th unit
  ends exactly where frame 0 ends (`Scenarios.LoopLapExample`).
- `SetFrame` accepts only indices below the last frame (Sprite.cpp:310).
- `SetFrame`'s backward loop (Sprite.cpp:328-333) starts at the last frame and
  counts up while `i > index`, so its second pass reads past the end of the
  frame list. The model admits `SetFrame` only when playback restarts forward,
  which is always the case for PingPong animations.

## Model

| member | source | states |
|---|---|---|
| `SpriteTypes.Reverse` | Sprite.cpp:264 | Reversing gives the other of the two directions |
| `SpriteTypes.ImageOf` | Sprite.h:82-84 | The image a frame names is an entry of the group's image list |
| `Playback.FirstFrame` | Sprite.cpp:230-241 | `first`: playback in a direction starts from one end of the frame list |
| `Playback.LastFrame` | Sprite.cpp:230-241 | `last`: the frame where travel in a direction ends is the frame travel in the other direction starts from, which is why a reversal (Sprite.cpp:266) swaps `first` and `last` |
| `Playback.Start` | Sprite.cpp:161 | Playback starts on a valid frame (0 forward, the last backward) in the requested direction |
| `Playback.Duration` | Sprite.cpp:248 | Each frame's duration is positive |
| `Playback.Next` | Sprite.cpp:250-268 | When a frame's time runs out, the next frame index is valid; only PingPong ever changes direction, and it keeps the frame when it does |
| `Playback.Iterate` | Sprite.cpp:246-276 | After any number of frame boundaries the frame index is still valid, and the direction changes only under PingPong |
| `Playback.PathTime` | Sprite.cpp:248-275 | Crossing at least one frame boundary takes a positive time |
| `Playback.StartTime` | Sprite.cpp:321-325 | The forward running total of frame durations is never negative |
| `Playback.BudgetShrinks` | Sprite.cpp:275 | Each pass of the loop uses up at least the shortest frame duration, which bounds the number of passes, so the loop ends |
| `Playback.Advance` | Sprite.cpp:246-276 | The stepping ends on a valid frame; a carry is strictly between 0 and the landed frame's duration; only PingPong changes direction |
| `Playback.AdvanceStep` | Sprite.cpp:250-275 | One pass: a frame whose time is used up is left for the next one; otherwise the remaining time becomes the carry |
| `Playback.PathTimeIncreasing` | Sprite.cpp:275 | Crossing more frame boundaries takes strictly more time |
| `Playback.TimelineCovers` | Sprite.cpp:246-276 | At every non-negative time some frame of the timeline is on screen |
| `Playback.TimelineUnique` | Sprite.cpp:246-276 | At every time at most one frame of the timeline is on screen |
| `Playback.AdvanceFollowsTimeline` | Sprite.cpp:246-276 | The loop stops on the frame that is on screen at time `e` of the timeline, carrying the time spent in it, or nothing if `e` is exactly that frame's start |
| `Playback.AdvanceSplits` | Sprite.cpp:222-275 | Stepping `x` and then `y` plus the carry left by `x` equals stepping `x + y` at once |
| `Playback.AdvanceSplitsAtBoundary` | Sprite.cpp:222-275 | The same when the first step ends on a boundary, continuing with no carry |
| `Playback.ForwardTimeline` | Sprite.cpp:252-255 | Played forward from the start, frame `k` comes on after `k` boundaries, at the sum of the durations of frames `[0, k)` |
| `Playback.BackwardTimeline` | Sprite.cpp:252-255 | Played backward from the start, frame `n - 1 - k` comes on after `k` boundaries |
| `Playback.ForwardFrom` | Sprite.cpp:252-255 | Played forward from any frame `f`, frame `f + j` comes on after `j` boundaries, once the durations of frames `[f, f + j)` have passed |
| `Playback.BackwardFrom` | Sprite.cpp:252-255 | Played backward from any frame `f`, frame `f - j` comes on after `j` boundaries, once the durations of frames `(f - j, f]` have passed |
| `Playback.OnceFreezes` | Sprite.cpp:256-268 | Once: after reaching the end in its direction, playback stays on the last frame |
| `Playback.OnceStopsOnLastFrame` | Sprite.cpp:256-268 | Once: from the time the end is reached on, the last frame stays on screen however much time passes |
| `Playback.OnceEndsOnLastFrame` | Sprite.h:121 | Once, played forward: advancing by at least the whole animation's length ends on the last frame |
| `Playback.LoopCycles` | Sprite.cpp:258-261 | Loop, forward: frames 0 to n-1 in order, then the same again every n boundaries |
| `Playback.LoopCyclesBackward` | Sprite.cpp:258-261 | Loop, backward: frames n-1 down to 0, then the same again every n boundaries |
| `Playback.LoopReturnsForward` | Sprite.cpp:252-261 | Loop, forward from any frame: `n` boundaries later playback is back on that frame, after exactly one whole pass of time |
| `Playback.LoopReturnsBackward` | Sprite.cpp:252-261 | Loop, backward from any frame: the same, going down through the first frame and round from the last |
| `Playback.LoopReturns` | Sprite.cpp:252-261 | Loop, from any frame in either direction: `n` boundaries bring playback back to where it was, after exactly one whole pass of time |
| `Playback.LoopLap` | Sprite.h:122 | Loop, from any frame in either direction: advancing by one more whole pass leaves frame, direction and carry as they were |
| `Playback.PingPongBounces` | Sprite.cpp:262-267 | PingPong: frames 0 to n-1 forward, then n-1 down to 0 backward (each end frame twice in a row), then the same again every 2n boundaries |
| `Playheads.ValidPlayhead` | Sprite.h:189-192 | The class invariant (also `AnimatedSprites.AnimatedSprite.Valid`): the animation index is valid, as asserted at Sprite.cpp:212; the frame index is valid and neither time is negative, which the source does not assert but every operation maintains (PlayAnimation and SetFrame set them, AdvanceTime adds a non-negative `elapsed` and writes only a positive `e` into `m_frameTime`); the animation can then be stepped and the current frame names an image of the group |
| `Playheads.RestartDirection` | Sprite.cpp:191-194 | SetTime and SetFrame restart a PingPong animation forward; other modes keep the current direction |
| `Playheads.Play` | Sprite.cpp:152-174 | PlayAnimation selects the animation and direction, starts on frame 0 or the last frame, and zeroes both times; the state is valid |
| `Playheads.AdvanceBy` | Sprite.cpp:209-291 | AdvanceTime keeps the state valid and the animation unchanged, and `m_time` grows by exactly the elapsed time |
| `Playheads.SetTimeTo` | Sprite.cpp:187-198 | SetTime keeps the animation and leaves `GetTime()` equal to the time set |
| `Playheads.SetFrameTo` | Sprite.cpp:305-337 | SetFrame leaves a valid state |
| `Playheads.AdvanceByFollowsTimeline` | Sprite.cpp:222-276 | After AdvanceTime the frame shown is the one on screen, on the timeline, at the elapsed time plus the old carry |
| `Playheads.SetTimeFollowsTimeline` | Sprite.cpp:187-198 | SetTime(t) shows the frame on screen at `t` on the restarted animation's timeline, and carries the time spent in it |
| `Playheads.SetFrameIsSetTime` | Sprite.cpp:310-337 | SetFrame(k) leaves exactly the state SetTime leaves for the time at which frame k starts, which is the sum of the durations of frames `[0, k)` |
| `Playheads.SetTimeThenAdvance` | Sprite.cpp:187-291 | SetTime(t) then AdvanceTime(e) shows the same frame, direction and time as SetTime(t + e) |
| `Playheads.AdvanceByTwice` | Sprite.cpp:222-290 | Two AdvanceTime calls equal one with the summed time when neither the first nor the combined call ends on a frame boundary |
| `Playheads.StaleCarryAtBoundary` | Sprite.cpp:270-273 | A call that ends on a boundary leaves the old carry in place, after which AdvanceTime and SetTime disagree on the frame shown |
| `Playheads.SetTimeCarryDiffers` | Sprite.cpp:187-198 | SetTime(5) then AdvanceTime(5) agrees with SetTime(10) on frame and time but not on the carry, so one more AdvanceTime(0.5) shows a different frame after each |
| `AnimatedSprites.StepMatchesNext` | Sprite.cpp:252-267 | The source's test `m_currentFrame * step < last * step` holds exactly when the frame is not yet the last one in the direction of travel; each branch lands where `Next` does, and a reversal leaves `step`, `first` and `last` set for the new direction |
| `AnimatedSprites.AnimatedSprite.Synced` | Sprite.cpp:167-173 | The displayed rectangle and offsets are those of the current frame's image, so what is shown is one of the group's images (likewise Sprite.cpp:280-286 and 341-347) |
| `AnimatedSprites.AnimatedSprite.constructor` | Sprite.cpp:118-131 | A new sprite is on frame 0 of animation 0, forward, with both times zero and an empty rectangle, on the given group and position |
| `AnimatedSprites.AnimatedSprite.ShowCurrentFrame` | Sprite.cpp:165-173 | The rectangle and origin offsets become those of the current frame's image |
| `AnimatedSprites.AnimatedSprite.PlayAnimation` | Sprite.cpp:152-174 | The state becomes `Play(index, dir)`, the current frame's image is shown, and the position does not change |
| `AnimatedSprites.AnimatedSprite.SetTime` | Sprite.cpp:187-198 | The state becomes `SetTimeTo(t)`: forward for PingPong, restarted, advanced by `t`; the current frame's image is shown |
| `AnimatedSprites.AnimatedSprite.AdvanceTime` | Sprite.cpp:209-291 | The state becomes `AdvanceBy(elapsed)`; nothing changes when `elapsed` is 0; otherwise the current frame's image is shown |
| `AnimatedSprites.AnimatedSprite.StepFrames` | Sprite.cpp:222-276 | The stepping loop ends on the frame and direction `Advance` gives; the carry is written only when the stepping ends inside a frame, and otherwise keeps its old value |
| `AnimatedSprites.AnimatedSprite.SetFrame` | Sprite.cpp:305-348 | The frame becomes `index`, the carry 0, the direction forward, and `m_time` the sum of the durations of frames `[0, index)`; the image is shown |
| `AnimatedSprites.AnimatedSprite.Service` | Sprite.cpp:359-364 | Same effect as AdvanceTime |
| `AnimatedSprites.AnimatedSprite.GetAnimation` | Sprite.h:175 | Returns the current animation index, which always indexes the group's animation list |
| `AnimatedSprites.AnimatedSprite.GetTime` | Sprite.h:178 | Returns the current time, which is never negative |
| `AnimatedSprites.AnimatedSprite.GetFrame` | Sprite.h:181 | Returns the current frame index, which always indexes the current animation's frames |
| `Scenarios.LoopLapExample` | Sprite.cpp:256-261 | Loop over 1, 2, 3: at 6 the first frame is back on a boundary; at 7 the second frame is on with nothing carried |
| `Scenarios.PingPongExample` | Sprite.cpp:262-267 | PingPong over three frames of 1: at 2.5 the last frame is half over; at 3 the direction reverses on the last frame; at 4.5 the middle frame is half over, backward |

## Left out

- `Sprite::Draw` (Sprite.cpp:78-87) is an SDL blit with float-to-int rounding of the position. It is a foreign call, so it is not modelled.
- The `Sprite` constructors (Sprite.cpp:26-59) and the sheet surface pointer are not modelled. The sprite fields the animated sprite updates (`m_rect`, `m_offsetX`, `m_offsetY`) and its position are fields of the class.
- The default `AnimatedSprite()` constructor (Sprite.cpp:94-102) leaves the group pointer null, so it is not modelled. Every sprite here has a group.
- `SpriteFactory::LoadSprite` and `LoadAnimatedSprite` (Sprite.cpp:391-411) always return null and parse nothing, so they are not modelled.
- Sdlx.cpp and Sdlx.h are not part of this model. They hold image loading, the SDL event loop and trivial rectangle and colour builders: file I/O and platform calls.
- The `AnimationGroup` constructor (Sprite.cpp:374-378) only copies its two lists. It is the datatype constructor `Group`.
- Times are exact reals. IEEE single-precision rounding of `m_time`, `m_frameTime` and `e` is not modelled.
- `SDL_Rect` fields are 16-bit in SDL. Here they are unbounded integers, which only matters for rectangles the group supplies.
- Frame durations must be positive (`SpriteTypes.Playable`). With a zero duration, the source loop can fail to terminate.
- Every frame must name an image of the group, and every animation must have at least one frame (`SpriteTypes.WellFormed`). The source indexes the lists without checking.
- The constructor requires a group with at least one animation. AdvanceTime asserts that the current animation index is valid (Sprite.cpp:212), and PlayAnimation asserts it of its argument (Sprite.cpp:154). SetTime (Sprite.cpp:189) and SetFrame (Sprite.cpp:307) index the list without an assertion. The model keeps the index valid as a class invariant.
- Default arguments are not modelled: `PlayAnimation`'s `direction = DIR_FORWARD` (Sprite.h:163) and the constructor's `x = 0, y = 0` (Sprite.h:157). Callers pass every argument.
- AnimatedSprites.AnimatedSprite.AdvanceTime: requires `elapsed >= 0`, as the source's assertion does (Sprite.cpp:211). With assertions compiled out, a negative time returns at Sprite.cpp:217 with nothing changed. That path is not modelled.
- AnimatedSprites.AnimatedSprite.Service: requires `elapsedTime >= 0`, as asserted at Sprite.cpp:361.
- AnimatedSprites.AnimatedSprite.SetTime: requires `t >= 0`. The time is passed on to AdvanceTime, which asserts it.
- AnimatedSprites.AnimatedSprite.SetFrame: backward playback of a Once or Loop animation is excluded by the precondition. The source's backward loop (Sprite.cpp:328-333) reads past the end of the frame list.
- The sprite holds the group as a `const` value. The pointer's lifetime, and the sharing of one group by many sprites, are not modelled.
