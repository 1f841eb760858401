// The animation state an AnimatedSprite keeps (Sprite.h:189-193) and what each
// of its operations does to it (Sprite.cpp:152-364), as functions on values. The
// class in animated_sprite.dfy is proved to follow these functions; the lemmas
// here say what they mean.
module Playheads {
  import opened SpriteTypes
  import opened Playback

  /** Which animation is playing, which of its frames is shown, which way playback
      moves, how long the animation has been playing (`time`, m_time) and the time
      carried into the current frame (`frameTime`, m_frameTime). */
  datatype Playhead = Playhead(animation: nat, frame: nat, direction: Direction, time: real, frameTime: real)

  /** The class invariant: both indices are valid, and neither time is negative.
      The animation played can then be stepped, and its current frame names an
      image of the group. */
  predicate ValidPlayhead(g: Group, p: Playhead): (b: bool)
    ensures b ==> p.animation < |g.animations| && Playable(g.animations[p.animation])
    ensures b ==> p.animation < |g.animations| && p.frame < |g.animations[p.animation].frames|
                  && WellFormed(g) && ImageOf(g, p.animation, p.frame) in g.images
  {
    && WellFormed(g)
    && p.animation < |g.animations|
    && p.frame < |g.animations[p.animation].frames|
    && p.time >= 0.0
    && p.frameTime >= 0.0
  }

  function AnimationOf(g: Group, p: Playhead): (a: Animation)
    requires ValidPlayhead(g, p)
    ensures Playable(a) && InRange(a, CursorOf(p))
  {
    g.animations[p.animation]
  }

  function CursorOf(p: Playhead): Cursor {
    Cursor(p.frame, p.direction)
  }

  /** PlayAnimation (Sprite.cpp:152-174): restart animation `index` at its first
      frame in direction `d`, with both times zero. */
  function Play(g: Group, index: nat, d: Direction): (p: Playhead)
    requires WellFormed(g) && index < |g.animations|
    ensures ValidPlayhead(g, p)
    ensures CursorOf(p) == Start(AnimationOf(g, p), d) && p.animation == index
    ensures p.time == 0.0 && p.frameTime == 0.0
  {
    Playhead(index, FirstFrame(|g.animations[index].frames|, d), d, 0.0, 0.0)
  }

  /** AdvanceTime (Sprite.cpp:209-291): nothing happens for no elapsed time;
      otherwise the elapsed time plus the carry is stepped through the frames, the
      carry is replaced only when the stepping ends inside a frame, and the
      animation's time grows by the elapsed time. */
  function AdvanceBy(g: Group, p: Playhead, elapsed: real): (q: Playhead)
    requires ValidPlayhead(g, p) && elapsed >= 0.0
    ensures ValidPlayhead(g, q)
    ensures q.animation == p.animation && q.time == p.time + elapsed
  {
    if elapsed <= 0.0 then p
    else
      var s := Advance(AnimationOf(g, p), CursorOf(p), elapsed + p.frameTime);
      Playhead(p.animation, s.at.frame, s.at.dir, p.time + elapsed,
               if s.carry.Within? then s.carry.time else p.frameTime)
  }

  /** The direction SetTime and SetFrame restart in: forward for a ping-pong
      animation, the current direction otherwise. */
  function RestartDirection(g: Group, p: Playhead): (d: Direction)
    requires ValidPlayhead(g, p)
    ensures AnimationOf(g, p).mode == PingPong ==> d == Forward
    ensures d == Forward || d == p.direction
  {
    if AnimationOf(g, p).mode == PingPong then Forward else p.direction
  }

  /** SetTime (Sprite.cpp:187-198): restart the current animation and advance it by `t`. */
  function SetTimeTo(g: Group, p: Playhead, t: real): (q: Playhead)
    requires ValidPlayhead(g, p) && t >= 0.0
    ensures ValidPlayhead(g, q)
    ensures q.animation == p.animation && q.time == t
  {
    AdvanceBy(g, Play(g, p.animation, RestartDirection(g, p)), t)
  }

  /** SetFrame (Sprite.cpp:305-348), forward only: show frame `k` from its start,
      with the animation's time set to the time at which frame `k` starts. */
  function SetFrameTo(g: Group, p: Playhead, k: nat): (q: Playhead)
    requires ValidPlayhead(g, p) && k < |AnimationOf(g, p).frames| - 1
    requires RestartDirection(g, p) == Forward
    ensures ValidPlayhead(g, q)
  {
    Playhead(p.animation, k, Forward, StartTime(AnimationOf(g, p).frames, k), 0.0)
  }

  // ---------------------------------------------------------------------------
  // What the operations mean

  /** AdvanceTime shows the frame that is on screen, on the animation's timeline,
      `elapsed` after the point the carry places it at. */
  lemma AdvanceByFollowsTimeline(g: Group, p: Playhead, elapsed: real)
    requires ValidPlayhead(g, p) && elapsed > 0.0
    ensures exists k: nat ::
      && OnScreenAt(AnimationOf(g, p), CursorOf(p), k, elapsed + p.frameTime)
      && CursorOf(AdvanceBy(g, p, elapsed)) == Iterate(AnimationOf(g, p), CursorOf(p), k)
  {
    var a, c, e := AnimationOf(g, p), CursorOf(p), elapsed + p.frameTime;
    TimelineCovers(a, c, e);
    var k: nat :| OnScreenAt(a, c, k, e);
    AdvanceFollowsTimeline(a, c, e, k);
  }

  /** SetTime shows the frame on screen at time `t` of the timeline of the
      restarted animation, and carries exactly the time spent in that frame. */
  lemma SetTimeFollowsTimeline(g: Group, p: Playhead, t: real, k: nat)
    requires ValidPlayhead(g, p) && t >= 0.0
    requires OnScreenAt(AnimationOf(g, p), Start(AnimationOf(g, p), RestartDirection(g, p)), k, t)
    ensures var a, s := AnimationOf(g, p), Start(AnimationOf(g, p), RestartDirection(g, p));
      && CursorOf(SetTimeTo(g, p, t)) == Iterate(a, s, k)
      && SetTimeTo(g, p, t).frameTime == t - PathTime(a, s, k)
  {
    var a, s := AnimationOf(g, p), Start(AnimationOf(g, p), RestartDirection(g, p));
    AdvanceFollowsTimeline(a, s, t, k);
    assert t + 0.0 == t;
  }

  /** SetFrame(k) leaves the sprite exactly as SetTime would at the moment frame
      `k` starts. */
  lemma SetFrameIsSetTime(g: Group, p: Playhead, k: nat)
    requires ValidPlayhead(g, p) && k < |AnimationOf(g, p).frames| - 1
    requires RestartDirection(g, p) == Forward
    ensures SetFrameTo(g, p, k) == SetTimeTo(g, p, StartTime(AnimationOf(g, p).frames, k))
  {
    var a := AnimationOf(g, p);
    var t := StartTime(a.frames, k);
    ForwardTimeline(a, k);
    if k > 0 {
      AdvanceFollowsTimeline(a, Start(a, Forward), t + 0.0, k);
    }
  }

  /** After SetTime(t), advancing by `e` shows the frame, with the direction and
      the time, that SetTime(t + e) shows. */
  lemma SetTimeThenAdvance(g: Group, p: Playhead, t: real, e: real)
    requires ValidPlayhead(g, p) && t >= 0.0 && e >= 0.0
    ensures var q, r := AdvanceBy(g, SetTimeTo(g, p, t), e), SetTimeTo(g, p, t + e);
      CursorOf(q) == CursorOf(r) && q.time == r.time
  {
    var a, s := AnimationOf(g, p), Start(AnimationOf(g, p), RestartDirection(g, p));
    if t > 0.0 && e > 0.0 {
      var first := Advance(a, s, t + 0.0);
      if first.carry.Within? {
        AdvanceSplits(a, s, t, e);
        assert e + first.carry.time == first.carry.time + e;
      } else {
        AdvanceSplitsAtBoundary(a, s, t, e);
        assert e + 0.0 == e;
      }
      assert t + e + 0.0 == t + e;
    }
  }

  /** Two calls of AdvanceTime equal one call with the sum of their times, as long
      as neither the first call nor the combined advance ends exactly on a frame
      boundary. */
  lemma AdvanceByTwice(g: Group, p: Playhead, x: real, y: real)
    requires ValidPlayhead(g, p) && x > 0.0 && y > 0.0
    requires Advance(AnimationOf(g, p), CursorOf(p), x + p.frameTime).carry.Within?
    requires Advance(AnimationOf(g, p), CursorOf(p), x + y + p.frameTime).carry.Within?
    ensures AdvanceBy(g, AdvanceBy(g, p, x), y) == AdvanceBy(g, p, x + y)
  {
    var a, c := AnimationOf(g, p), CursorOf(p);
    var first := Advance(a, c, x + p.frameTime);
    AdvanceSplits(a, c, x + p.frameTime, y);
    assert x + p.frameTime + y == x + y + p.frameTime;
    assert y + first.carry.time == first.carry.time + y;
  }

  /** A group of one looping animation with frames of 10 and 1 time units. */
  const StaleCarryGroup := Group([Image(Rect(0, 0, 0, 0), 0, 0)], [Animation(Loop, [Frame(0, 10.0), Frame(0, 1.0)])])

  lemma StaleCarrySteps()
    ensures var a := StaleCarryGroup.animations[0];
      && Advance(a, Cursor(0, Forward), 5.0) == Stop(Cursor(0, Forward), Within(5.0))
      && Advance(a, Cursor(0, Forward), 10.0) == Stop(Cursor(1, Forward), Boundary)
      && Advance(a, Cursor(1, Forward), 5.5) == Stop(Cursor(0, Forward), Within(4.5))
      && Advance(a, Cursor(0, Forward), 10.5) == Stop(Cursor(1, Forward), Within(0.5))
      && Advance(a, Cursor(1, Forward), 0.5) == Stop(Cursor(1, Forward), Within(0.5))
  {
  }

  /** When an AdvanceTime call ends exactly on a frame boundary, the carry into
      the new frame keeps its value from before the call instead of becoming zero,
      so later calls run ahead of the timeline. Here two calls of 5 land on the
      boundary at 10 with a carry of 5 left over; a further call of 0.5 then shows
      frame 0, while SetTime(10.5) shows frame 1. */
  lemma StaleCarryAtBoundary()
    ensures var g := StaleCarryGroup;
      var p := AdvanceBy(g, AdvanceBy(g, Play(g, 0, Forward), 5.0), 5.0);
      && p.frame == 1 && p.time == 10.0 && p.frameTime == 5.0
      && AdvanceBy(g, p, 0.5).frame == 0
      && SetTimeTo(g, p, 10.5).frame == 1
  {
    var g := StaleCarryGroup;
    StaleCarrySteps();
    var p1 := AdvanceBy(g, Play(g, 0, Forward), 5.0);
    assert p1 == Playhead(0, 0, Forward, 5.0, 5.0);
    var p2 := AdvanceBy(g, p1, 5.0);
    assert p2 == Playhead(0, 1, Forward, 10.0, 5.0);
    assert 0.5 + p2.frameTime == 5.5;
    assert AdvanceBy(g, p2, 0.5).frame == 0;
    var p := Play(g, 0, Forward);
    assert p == Playhead(0, 0, Forward, 0.0, 0.0);
    assert RestartDirection(g, p2) == Forward;
    assert SetTimeTo(g, p2, 10.5) == AdvanceBy(g, p, 10.5);
    assert 10.5 + p.frameTime == 10.5;
    assert SetTimeTo(g, p2, 10.5).frame == 1;
  }

  /** SetTime(5) then AdvanceTime(5) lands where SetTime(10) does, but keeps the
      carry of 5 from before the call, so one more AdvanceTime(0.5) shows frame 0
      after it and frame 1 after SetTime(10). */
  lemma SetTimeCarryDiffers()
    ensures var g := StaleCarryGroup;
      var p := Play(g, 0, Forward);
      var q, r := AdvanceBy(g, SetTimeTo(g, p, 5.0), 5.0), SetTimeTo(g, p, 10.0);
      && CursorOf(q) == CursorOf(r) && q.time == r.time
      && q.frameTime == 5.0 && r.frameTime == 0.0
      && AdvanceBy(g, q, 0.5).frame == 0 && AdvanceBy(g, r, 0.5).frame == 1
  {
    var g := StaleCarryGroup;
    StaleCarrySteps();
    var p := Play(g, 0, Forward);
    assert p == Playhead(0, 0, Forward, 0.0, 0.0);
    assert RestartDirection(g, p) == Forward;
    var p5 := SetTimeTo(g, p, 5.0);
    assert p5 == AdvanceBy(g, p, 5.0);
    assert 5.0 + p.frameTime == 5.0;
    assert p5 == Playhead(0, 0, Forward, 5.0, 5.0);
    var q := AdvanceBy(g, p5, 5.0);
    assert 5.0 + p5.frameTime == 10.0;
    assert q == Playhead(0, 1, Forward, 10.0, 5.0);
    var r := SetTimeTo(g, p, 10.0);
    assert r == AdvanceBy(g, p, 10.0);
    assert 10.0 + p.frameTime == 10.0;
    assert r == Playhead(0, 1, Forward, 10.0, 0.0);
    assert 0.5 + q.frameTime == 5.5;
    assert AdvanceBy(g, q, 0.5).frame == 0;
    assert 0.5 + r.frameTime == 0.5;
    assert AdvanceBy(g, r, 0.5).frame == 1;
  }
}
