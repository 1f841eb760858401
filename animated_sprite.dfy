// The AnimatedSprite class (Sprite.h:92-194, Sprite.cpp:118-364). Its methods
// update the sprite's fields in place, step by step as the source does, and
// each is proved to leave the animation state given by the matching function
// of the Playheads module, with the displayed rectangle and origin offsets
// taken from the image of the current frame.
module AnimatedSprites {
  import opened SpriteTypes
  import opened Playback
  import opened Playheads

  /** The source's step at a frame boundary (Sprite.cpp:252-267), with `step`,
      `first` and `last` set for the direction of travel: the test
      `frame * step < last * step` holds exactly when the frame is not yet the last
      one, and each branch then lands where `Next` does; a reversal leaves `step`,
      `first` and `last` set for the new direction. */
  lemma StepMatchesNext(a: Animation, c: Cursor, step: int, first: int, last: int)
    requires Playable(a) && InRange(a, c)
    requires step == (if c.dir == Forward then 1 else -1)
    requires first == FirstFrame(|a.frames|, c.dir) && last == LastFrame(|a.frames|, c.dir)
    ensures (c.frame * step < last * step) == (c.frame != last)
    ensures c.frame * step < last * step ==> Next(a, c) == Cursor(c.frame + step, c.dir)
    ensures !(c.frame * step < last * step) ==> match a.mode
      case Once => Next(a, c) == c
      case Loop => Next(a, c) == Cursor(first, c.dir)
      case PingPong =>
        && Next(a, c) == Cursor(c.frame, Reverse(c.dir))
        && -step == (if Reverse(c.dir) == Forward then 1 else -1)
        && last == FirstFrame(|a.frames|, Reverse(c.dir))
        && first == LastFrame(|a.frames|, Reverse(c.dir))
  {
  }

  class AnimatedSprite {
    // The sprite part (Sprite.h:57-61): position on the display, and the
    // rectangle on the sheet and origin offset of the image shown.
    var x: real
    var y: real
    var rect: Rect
    var offsetX: int
    var offsetY: int

    // The animation part (Sprite.h:188-193). The group is shared and never
    // changed by the sprite.
    const group: Group
    var animation: nat
    var frame: nat
    var time: real
    var frameTime: real
    var direction: Direction

    function State(): Playhead
      reads this
    {
      Playhead(animation, frame, direction, time, frameTime)
    }

    ghost predicate Valid()
      reads this
    {
      ValidPlayhead(group, State())
    }

    /** The rectangle and offsets shown are those of the current frame's image,
        so what is shown is one of the group's images. */
    ghost predicate Synced(): (b: bool)
      reads this
      requires Valid()
      ensures b ==> Image(rect, offsetX, offsetY) in group.images
    {
      var img := ImageOf(group, animation, frame);
      rect == img.rect && offsetX == img.offsetX && offsetY == img.offsetY
    }

    /** The two-argument constructor (Sprite.cpp:118-131): animation 0, frame 0,
        forward, both times zero, and an empty rectangle until an animation is played. */
    constructor (group: Group, x: real, y: real)
      requires WellFormed(group) && |group.animations| > 0
      ensures Valid() && this.group == group && this.x == x && this.y == y
      ensures State() == Playhead(0, 0, Forward, 0.0, 0.0)
      ensures rect == Rect(0, 0, 0, 0) && offsetX == 0 && offsetY == 0
    {
      this.x, this.y := x, y;
      rect, offsetX, offsetY := Rect(0, 0, 0, 0), 0, 0;
      this.group := group;
      animation, frame := 0, 0;
      time, frameTime := 0.0, 0.0;
      direction := Forward;
    }

    /** Shows the image of the current frame. */
    method ShowCurrentFrame()
      requires Valid()
      modifies this`rect, this`offsetX, this`offsetY
      ensures Synced()
    {
      var img := ImageOf(group, animation, frame);
      rect := img.rect;
      offsetX := img.offsetX;
      offsetY := img.offsetY;
    }

    method PlayAnimation(index: int, dir: Direction)
      requires Valid() && 0 <= index < |group.animations|
      modifies this
      ensures Valid() && Synced()
      ensures State() == Play(group, index, dir)
      ensures x == old(x) && y == old(y)
    {
      var frames := group.animations[index].frames;
      animation := index;
      direction := dir;
      frame := if dir == Forward then 0 else |frames| - 1;
      time := 0.0;
      frameTime := 0.0;
      ShowCurrentFrame();
    }

    method SetTime(t: real)
      requires Valid() && t >= 0.0
      modifies this
      ensures Valid() && Synced()
      ensures State() == SetTimeTo(group, old(State()), t)
      ensures x == old(x) && y == old(y)
    {
      var a := group.animations[animation];
      if a.mode == PingPong {
        direction := Forward;
      }
      PlayAnimation(animation, direction);
      AdvanceTime(t);
    }

    method AdvanceTime(elapsed: real)
      requires Valid() && elapsed >= 0.0
      modifies this
      ensures Valid()
      ensures State() == AdvanceBy(group, old(State()), elapsed)
      ensures elapsed == 0.0 ==> unchanged(this)
      ensures elapsed > 0.0 ==> Synced()
      ensures x == old(x) && y == old(y)
    {
      var a := group.animations[animation];
      if elapsed <= 0.0 {
        return;
      }
      StepFrames(a, elapsed + frameTime);
      ShowCurrentFrame();
      time := time + elapsed;
    }

    /** The stepping loop of AdvanceTime (Sprite.cpp:222-276): time `e` is stepped
        through the frames of the current animation `a`, starting from `e0`; the
        carry is written only when `e` runs out strictly inside a frame. */
    method StepFrames(a: Animation, e0: real)
      requires Valid() && a == group.animations[animation] && e0 > 0.0
      modifies this`frame, this`direction, this`frameTime
      ensures Valid()
      ensures var s := Advance(a, old(Cursor(frame, direction)), e0);
        && Cursor(frame, direction) == s.at
        && frameTime == if s.carry.Within? then s.carry.time else old(frameTime)
    {
      var frames := a.frames;
      var e := e0;

      var step: int, first: int, last: int;
      match direction {
        case Forward =>
          step, first, last := 1, 0, |frames| - 1;
        case Backward =>
          step, first, last := -1, |frames| - 1, 0;
      }

      ghost var start, carry0 := Cursor(frame, direction), frameTime;
      while e > 0.0
        invariant frame < |frames| && frameTime >= 0.0
        invariant step == (if direction == Forward then 1 else -1)
        invariant first == FirstFrame(|frames|, direction) && last == LastFrame(|frames|, direction)
        invariant e >= 0.0 ==> Advance(a, start, e0) == Advance(a, Cursor(frame, direction), e) && frameTime == carry0
        invariant e < 0.0 ==> Advance(a, start, e0) == Stop(Cursor(frame, direction), Within(frameTime))
        decreases Passes(a, Cursor(frame, direction), e)
      {
        var currentFrameTime := frames[frame].time;
        ghost var c := Cursor(frame, direction);
        AdvanceStep(a, c, e);
        if e >= currentFrameTime {
          StepMatchesNext(a, c, step, first, last);
          if frame * step < last * step {
            frame := frame + step;
          } else {
            if a.mode == Loop {
              frame := first;
            } else if a.mode == PingPong {
              direction := if direction == Forward then Backward else Forward;
              step := -step;
              first, last := last, first;
            }
          }
          assert Cursor(frame, direction) == Next(a, c);
        } else {
          frameTime := e;
        }
        e := e - currentFrameTime;
      }
    }

    /** Forward only: the source's backward loop (Sprite.cpp:328-333) counts up from
        the last frame and reads past the end of the frame list, so backward play of
        a non-ping-pong animation is excluded by the precondition. */
    method SetFrame(index: int)
      requires Valid()
      requires 0 <= index < |group.animations[animation].frames| - 1
      requires direction == Forward || group.animations[animation].mode == PingPong
      modifies this
      ensures Valid() && Synced()
      ensures State() == SetFrameTo(group, old(State()), index)
      ensures x == old(x) && y == old(y)
    {
      var a := group.animations[animation];
      var frames := a.frames;
      time := 0.0;
      if a.mode == PingPong {
        direction := Forward;
      }
      for i := 0 to index
        invariant time == StartTime(frames, i)
        modifies this`time
      {
        time := time + frames[i].time;
      }
      frame := index;
      frameTime := 0.0;
      ShowCurrentFrame();
    }

    method Service(elapsedTime: real)
      requires Valid() && elapsedTime >= 0.0
      modifies this
      ensures Valid()
      ensures State() == AdvanceBy(group, old(State()), elapsedTime)
      ensures elapsedTime == 0.0 ==> unchanged(this)
      ensures elapsedTime > 0.0 ==> Synced()
      ensures x == old(x) && y == old(y)
    {
      AdvanceTime(elapsedTime);
    }

    function GetAnimation(): (r: nat)
      reads this
      requires Valid()
      ensures r < |group.animations|
    {
      animation
    }

    function GetTime(): (r: real)
      reads this
      requires Valid()
      ensures r >= 0.0
    {
      time
    }

    function GetFrame(): (r: nat)
      reads this
      requires Valid()
      ensures r < |group.animations[GetAnimation()].frames|
    {
      frame
    }
  }
}
