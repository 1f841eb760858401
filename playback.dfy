// The frame-stepping at the heart of AnimatedSprite::AdvanceTime (Sprite.cpp:209-291),
// stated on values. A cursor is a frame index and a direction of travel; `Next`
// is what happens when the current frame's time runs out, and `Advance` is the
// carry-based stepping loop. The lemmas relate `Advance` to the timeline of an
// animation: the frames shown one after another from a cursor, each for its
// duration.
module Playback {
  import opened SpriteTypes

  /** Where playback stands: the current frame and the direction of travel. */
  datatype Cursor = Cursor(frame: nat, dir: Direction)

  /** How an advance ends: strictly inside the frame it lands on, `time` after
      that frame started, or exactly on the boundary where that frame starts. */
  datatype Carry = Boundary | Within(time: real)

  datatype Stop = Stop(at: Cursor, carry: Carry)

  predicate InRange(a: Animation, c: Cursor) {
    c.frame < |a.frames|
  }

  /** The frame playback starts from in direction `d` (`first` in the source). */
  function FirstFrame(n: nat, d: Direction): (r: nat)
    requires n > 0
    ensures r < n && (r == 0 || r == n - 1)
  {
    if d == Forward then 0 else n - 1
  }

  /** The frame at which playback in direction `d` reaches the end (`last` in the
      source): the frame that playback in the other direction starts from. */
  function LastFrame(n: nat, d: Direction): (r: nat)
    requires n > 0
    ensures r < n && r == FirstFrame(n, Reverse(d))
  {
    if d == Forward then n - 1 else 0
  }

  /** The cursor at the start of animation `a` played in direction `d`. */
  function Start(a: Animation, d: Direction): (c: Cursor)
    requires Playable(a)
    ensures InRange(a, c) && c.dir == d
  {
    Cursor(FirstFrame(|a.frames|, d), d)
  }

  function Duration(a: Animation, c: Cursor): (d: real)
    requires Playable(a) && InRange(a, c)
    ensures d > 0.0
  {
    a.frames[c.frame].time
  }

  /** The cursor once the current frame's time has run out: one frame further in
      the direction of travel, or, at the end of the frame list, what the mode says. */
  function Next(a: Animation, c: Cursor): (r: Cursor)
    requires Playable(a) && InRange(a, c)
    ensures InRange(a, r)
    ensures r.dir != c.dir ==> a.mode == PingPong && r.frame == c.frame
  {
    var n := |a.frames|;
    if c.frame != LastFrame(n, c.dir) then
      Cursor(if c.dir == Forward then c.frame + 1 else c.frame - 1, c.dir)
    else
      match a.mode
      case Once => c
      case Loop => Cursor(FirstFrame(n, c.dir), c.dir)
      case PingPong => Cursor(c.frame, Reverse(c.dir))
  }

  /** The cursor after `k` frame boundaries have been crossed from `c`. */
  function Iterate(a: Animation, c: Cursor, k: nat): (r: Cursor)
    requires Playable(a) && InRange(a, c)
    ensures InRange(a, r)
    ensures a.mode != PingPong ==> r.dir == c.dir
    decreases k
  {
    if k == 0 then c else Iterate(a, Next(a, c), k - 1)
  }

  /** How long the first `k` frames shown from `c` last: the time at which the
      `k`-th frame boundary after `c` is crossed. */
  function PathTime(a: Animation, c: Cursor, k: nat): (t: real)
    requires Playable(a) && InRange(a, c)
    ensures k > 0 ==> t > 0.0
    ensures k == 0 ==> t == 0.0
    decreases k
  {
    if k == 0 then 0.0 else Duration(a, c) + PathTime(a, Next(a, c), k - 1)
  }

  /** `k` boundaries have been crossed after time `e` from `c`: the `k`-th frame of
      the timeline from `c` is the one on screen at `e`. */
  predicate OnScreenAt(a: Animation, c: Cursor, k: nat, e: real)
    requires Playable(a) && InRange(a, c)
  {
    PathTime(a, c, k) <= e < PathTime(a, c, k + 1)
  }

  /** When frame `k` of the list starts if the animation plays forward from its
      first frame: the sum of the durations of frames [0, k). */
  function StartTime(frames: seq<Frame>, k: nat): (t: real)
    requires k <= |frames|
    ensures (forall i :: 0 <= i < |frames| ==> frames[i].time > 0.0) ==> t >= 0.0
  {
    if k == 0 then 0.0 else StartTime(frames, k - 1) + frames[k - 1].time
  }

  /** The length of one forward pass over all the frames. */
  function TotalTime(frames: seq<Frame>): real {
    StartTime(frames, |frames|)
  }

  /** The shortest frame duration of a non-empty frame list. */
  function MinDuration(frames: seq<Frame>): (m: real)
    requires |frames| > 0
    ensures forall i :: 0 <= i < |frames| ==> m <= frames[i].time
    ensures exists i :: 0 <= i < |frames| && m == frames[i].time
  {
    if |frames| == 1 then frames[0].time
    else
      var rest := MinDuration(frames[1..]);
      if frames[0].time <= rest then frames[0].time else rest
  }

  /** A bound on the number of frame boundaries that time `e` can still cross:
      every frame lasts at least the shortest duration. */
  function Budget(a: Animation, e: real): int
    requires Playable(a)
  {
    (e / MinDuration(a.frames)).Floor
  }

  /** Dividing by a positive `m` distributes over subtraction. */
  lemma DivSub(x: real, y: real, m: real)
    requires m > 0.0
    ensures (x - y) / m == x / m - y / m
  {
    var q, r := x / m, y / m;
    assert q * m == x;
    assert r * m == y;
    assert (q - r) * m == x - y;
  }

  /** A quotient by a positive `m` is at least 1 when the dividend is at least `m`,
      and positive when the dividend is. */
  lemma DivBounds(x: real, m: real)
    requires m > 0.0
    ensures x >= m ==> x / m >= 1.0
    ensures x > 0.0 ==> x / m > 0.0
  {
    var q := x / m;
    assert q * m == x;
    assert (q - 1.0) * m == x - m;
  }

  lemma BudgetShrinks(a: Animation, e: real, d: real)
    requires Playable(a) && d >= MinDuration(a.frames)
    ensures Budget(a, e - d) < Budget(a, e)
    ensures e > 0.0 ==> Budget(a, e) >= 0
  {
    var m := MinDuration(a.frames);
    var i :| 0 <= i < |a.frames| && m == a.frames[i].time;
    assert m > 0.0;
    DivSub(e, d, m);
    DivBounds(d, m);
    DivBounds(e, m);
  }

  /** The carry-based stepping of AdvanceTime (Sprite.cpp:246-276): while time `e`
      reaches the end of the current frame, move on to the next frame; stop when `e`
      is used up exactly or ends strictly inside the current frame. */
  function Advance(a: Animation, c: Cursor, e: real): (s: Stop)
    requires Playable(a) && InRange(a, c) && e >= 0.0
    ensures InRange(a, s.at)
    ensures s.carry.Within? ==> 0.0 < s.carry.time < Duration(a, s.at)
    ensures a.mode != PingPong ==> s.at.dir == c.dir
    decreases Budget(a, e)
  {
    if e == 0.0 then Stop(c, Boundary)
    else if e >= Duration(a, c) then
      BudgetShrinks(a, e, Duration(a, c));
      Advance(a, Next(a, c), e - Duration(a, c))
    else Stop(c, Within(e))
  }

  /** How many passes the stepping loop makes from `c` with time `e` still to
      step through: the loop's termination measure. */
  function Passes(a: Animation, c: Cursor, e: real): nat
    requires Playable(a) && InRange(a, c)
    decreases Budget(a, e)
  {
    if e <= 0.0 then 0
    else if e >= Duration(a, c) then
      BudgetShrinks(a, e, Duration(a, c));
      1 + Passes(a, Next(a, c), e - Duration(a, c))
    else 1
  }

  /** One pass of the stepping loop. */
  lemma AdvanceStep(a: Animation, c: Cursor, e: real)
    requires Playable(a) && InRange(a, c) && e > 0.0
    ensures e >= Duration(a, c) ==> Advance(a, c, e) == Advance(a, Next(a, c), e - Duration(a, c))
    ensures e < Duration(a, c) ==> Advance(a, c, e) == Stop(c, Within(e))
  {
  }

  // ---------------------------------------------------------------------------
  // The timeline

  lemma {:induction false} IterateSucc(a: Animation, c: Cursor, k: nat)
    requires Playable(a) && InRange(a, c)
    ensures Iterate(a, c, k + 1) == Next(a, Iterate(a, c, k))
    decreases k
  {
    if k > 0 {
      IterateSucc(a, Next(a, c), k - 1);
    }
  }

  lemma {:induction false} PathTimeSucc(a: Animation, c: Cursor, k: nat)
    requires Playable(a) && InRange(a, c)
    ensures PathTime(a, c, k + 1) == PathTime(a, c, k) + Duration(a, Iterate(a, c, k))
    decreases k
  {
    if k > 0 {
      PathTimeSucc(a, Next(a, c), k - 1);
    }
  }

  /** Crossing more boundaries always takes strictly more time. */
  lemma {:induction false} PathTimeIncreasing(a: Animation, c: Cursor, i: nat, j: nat)
    requires Playable(a) && InRange(a, c) && i < j
    ensures PathTime(a, c, i) < PathTime(a, c, j)
    decreases j
  {
    PathTimeSucc(a, c, j - 1);
    if i < j - 1 {
      PathTimeIncreasing(a, c, i, j - 1);
    }
  }

  /** Crossing `i + j` boundaries is crossing `i`, then `j` more from where the first `i` end. */
  lemma {:induction false} TimelineConcat(a: Animation, c: Cursor, i: nat, j: nat)
    requires Playable(a) && InRange(a, c)
    ensures Iterate(a, c, i + j) == Iterate(a, Iterate(a, c, i), j)
    ensures PathTime(a, c, i + j) == PathTime(a, c, i) + PathTime(a, Iterate(a, c, i), j)
    decreases i
  {
    if i > 0 {
      TimelineConcat(a, Next(a, c), i - 1, j);
      assert i + j - 1 == (i - 1) + j;
    }
  }

  /** At every non-negative time there is at least one frame of the timeline on
      screen (`TimelineUnique` shows there is at most one). */
  lemma {:induction false} TimelineCovers(a: Animation, c: Cursor, e: real)
    requires Playable(a) && InRange(a, c) && e >= 0.0
    ensures exists k: nat :: OnScreenAt(a, c, k, e)
    decreases Passes(a, c, e)
  {
    var d := Duration(a, c);
    if e < d {
      assert OnScreenAt(a, c, 0, e);
    } else {
      TimelineCovers(a, Next(a, c), e - d);
      var k: nat :| OnScreenAt(a, Next(a, c), k, e - d);
      assert OnScreenAt(a, c, k + 1, e);
    }
  }

  lemma TimelineUnique(a: Animation, c: Cursor, e: real, k1: nat, k2: nat)
    requires Playable(a) && InRange(a, c)
    requires OnScreenAt(a, c, k1, e) && OnScreenAt(a, c, k2, e)
    ensures k1 == k2
  {
    if k1 + 1 < k2 {
      PathTimeIncreasing(a, c, k1 + 1, k2);
    } else if k2 + 1 < k1 {
      PathTimeIncreasing(a, c, k2 + 1, k1);
    }
  }

  /** The stepping loop finds the frame on screen at time `e` on the timeline from
      `c`, and carries the time already spent in it, unless `e` is exactly the
      moment that frame starts. */
  lemma {:induction false} AdvanceFollowsTimeline(a: Animation, c: Cursor, e: real, k: nat)
    requires Playable(a) && InRange(a, c) && OnScreenAt(a, c, k, e)
    ensures e >= 0.0
    ensures Advance(a, c, e) == Stop(Iterate(a, c, k),
      if e == PathTime(a, c, k) then Boundary else Within(e - PathTime(a, c, k)))
    decreases k
  {
    if k > 0 {
      AdvanceFollowsTimeline(a, Next(a, c), e - Duration(a, c), k - 1);
    }
  }

  /** Advancing by `x` and then by `y` from where the first advance stopped, with
      its carry, is advancing by `x + y` at once. */
  lemma {:induction false} AdvanceSplits(a: Animation, c: Cursor, x: real, y: real)
    requires Playable(a) && InRange(a, c) && x >= 0.0 && y >= 0.0
    requires Advance(a, c, x).carry.Within?
    ensures Advance(a, c, x + y)
         == Advance(a, Advance(a, c, x).at, Advance(a, c, x).carry.time + y)
    decreases Passes(a, c, x)
  {
    var d := Duration(a, c);
    if x >= d {
      AdvanceSplits(a, Next(a, c), x - d, y);
      assert x + y - d == (x - d) + y;
    }
  }

  /** The same when the first advance ends exactly on a frame boundary: nothing is carried. */
  lemma {:induction false} AdvanceSplitsAtBoundary(a: Animation, c: Cursor, x: real, y: real)
    requires Playable(a) && InRange(a, c) && x >= 0.0 && y >= 0.0
    requires Advance(a, c, x).carry == Boundary
    ensures Advance(a, c, x + y) == Advance(a, Advance(a, c, x).at, y)
    decreases Passes(a, c, x)
  {
    var d := Duration(a, c);
    if x > 0.0 {
      AdvanceSplitsAtBoundary(a, Next(a, c), x - d, y);
      assert x + y - d == (x - d) + y;
    }
  }

  // ---------------------------------------------------------------------------
  // Playing forward from the first frame

  /** Playing forward from frame `f`, until the end of the list, frame `f + j` comes
      on after `j` boundaries, once the durations of frames [f, f + j) have passed. */
  lemma {:induction false} ForwardFrom(a: Animation, f: nat, j: nat)
    requires Playable(a) && f + j < |a.frames|
    ensures Iterate(a, Cursor(f, Forward), j) == Cursor(f + j, Forward)
    ensures PathTime(a, Cursor(f, Forward), j) == StartTime(a.frames, f + j) - StartTime(a.frames, f)
    ensures PathTime(a, Cursor(f, Forward), j + 1) == StartTime(a.frames, f + j + 1) - StartTime(a.frames, f)
    decreases j
  {
    var c := Cursor(f, Forward);
    if j > 0 {
      ForwardFrom(a, f, j - 1);
      IterateSucc(a, c, j - 1);
    }
    PathTimeSucc(a, c, j);
  }

  /** Until the end of the list, playing forward from the first frame shows frame
      `k` from StartTime(k) on. */
  lemma ForwardTimeline(a: Animation, k: nat)
    requires Playable(a) && k < |a.frames|
    ensures Iterate(a, Start(a, Forward), k) == Cursor(k, Forward)
    ensures PathTime(a, Start(a, Forward), k) == StartTime(a.frames, k)
    ensures PathTime(a, Start(a, Forward), k + 1) == StartTime(a.frames, k + 1)
  {
    ForwardFrom(a, 0, k);
  }

  /** Playing backward from frame `f`, until the first frame, frame `f - j` comes
      on after `j` boundaries, once the durations of frames (f - j, f] have passed. */
  lemma {:induction false} BackwardFrom(a: Animation, f: nat, j: nat)
    requires Playable(a) && j <= f < |a.frames|
    ensures Iterate(a, Cursor(f, Backward), j) == Cursor(f - j, Backward)
    ensures PathTime(a, Cursor(f, Backward), j) == StartTime(a.frames, f + 1) - StartTime(a.frames, f + 1 - j)
    decreases j
  {
    var c := Cursor(f, Backward);
    if j > 0 {
      BackwardFrom(a, f, j - 1);
      IterateSucc(a, c, j - 1);
      PathTimeSucc(a, c, j - 1);
    }
  }

  // ---------------------------------------------------------------------------
  // The three end-of-sequence policies

  /** How many boundaries lie between `c` and the end of the list in its direction. */
  function StepsToEnd(a: Animation, c: Cursor): nat
    requires InRange(a, c)
  {
    if c.dir == Forward then |a.frames| - 1 - c.frame else c.frame
  }

  /** Once: after reaching the end of the list, playback stays on the last frame. */
  lemma {:induction false} OnceFreezes(a: Animation, c: Cursor, k: nat)
    requires Playable(a) && InRange(a, c) && a.mode == Once
    requires k >= StepsToEnd(a, c)
    ensures Iterate(a, c, k) == Cursor(LastFrame(|a.frames|, c.dir), c.dir)
    decreases k
  {
    if k > 0 {
      OnceFreezes(a, Next(a, c), k - 1);
    }
  }

  /** Once: from the moment the last frame is reached, however much more time
      passes, the last frame stays on screen. */
  lemma OnceStopsOnLastFrame(a: Animation, c: Cursor, e: real)
    requires Playable(a) && InRange(a, c) && a.mode == Once
    requires e >= PathTime(a, c, StepsToEnd(a, c))
    ensures Advance(a, c, e).at == Cursor(LastFrame(|a.frames|, c.dir), c.dir)
  {
    TimelineCovers(a, c, e);
    var k: nat :| OnScreenAt(a, c, k, e);
    AdvanceFollowsTimeline(a, c, e, k);
    if k + 1 < StepsToEnd(a, c) {
      PathTimeIncreasing(a, c, k + 1, StepsToEnd(a, c));
    }
    OnceFreezes(a, c, k);
  }

  /** Once, played forward from the start: any time at least the whole
      animation's length ends on the last frame. */
  lemma OnceEndsOnLastFrame(a: Animation, e: real)
    requires Playable(a) && a.mode == Once && e >= TotalTime(a.frames)
    ensures Advance(a, Start(a, Forward), e).at == Cursor(|a.frames| - 1, Forward)
  {
    var n := |a.frames|;
    ForwardTimeline(a, n - 1);
    OnceStopsOnLastFrame(a, Start(a, Forward), e);
  }

  /** Played backward from the start, frame `n - 1 - k` is shown after `k`
      boundaries, until the first frame is reached. */
  lemma BackwardTimeline(a: Animation, k: nat)
    requires Playable(a) && k < |a.frames|
    ensures Iterate(a, Start(a, Backward), k) == Cursor(|a.frames| - 1 - k, Backward)
  {
    BackwardFrom(a, |a.frames| - 1, k);
  }

  /** Loop, played forward from the start: frames 0, 1, ..., n - 1, and then the
      same again every `n` boundaries. */
  lemma LoopCycles(a: Animation, k: nat)
    requires Playable(a) && a.mode == Loop
    ensures Iterate(a, Start(a, Forward), k)
         == if k < |a.frames| then Cursor(k, Forward) else Iterate(a, Start(a, Forward), k - |a.frames|)
  {
    var n, s := |a.frames|, Start(a, Forward);
    if k < n {
      ForwardTimeline(a, k);
    } else {
      ForwardTimeline(a, n - 1);
      IterateSucc(a, s, n - 1);
      TimelineConcat(a, s, n, k - n);
    }
  }

  /** Loop, played backward from the start: frames n - 1, ..., 1, 0, and then the
      same again every `n` boundaries. */
  lemma LoopCyclesBackward(a: Animation, k: nat)
    requires Playable(a) && a.mode == Loop
    ensures Iterate(a, Start(a, Backward), k)
         == if k < |a.frames| then Cursor(|a.frames| - 1 - k, Backward)
            else Iterate(a, Start(a, Backward), k - |a.frames|)
  {
    var n, s := |a.frames|, Start(a, Backward);
    if k < n {
      BackwardTimeline(a, k);
    } else {
      BackwardTimeline(a, n - 1);
      IterateSucc(a, s, n - 1);
      TimelineConcat(a, s, n, k - n);
    }
  }

  /** Loop, forward from frame `f`: on to the last frame, round to the first, and
      on again to `f`. */
  lemma LoopReturnsForward(a: Animation, f: nat)
    requires Playable(a) && f < |a.frames| && a.mode == Loop
    ensures Iterate(a, Cursor(f, Forward), |a.frames|) == Cursor(f, Forward)
    ensures PathTime(a, Cursor(f, Forward), |a.frames|) == TotalTime(a.frames)
  {
    var n, c := |a.frames|, Cursor(f, Forward);
    ForwardFrom(a, f, n - 1 - f);
    IterateSucc(a, c, n - 1 - f);
    assert Iterate(a, c, n - f) == Cursor(0, Forward);
    assert PathTime(a, c, n - f) == TotalTime(a.frames) - StartTime(a.frames, f);
    ForwardFrom(a, 0, f);
    TimelineConcat(a, c, n - f, f);
  }

  /** Loop, backward from frame `f`: down to the first frame, round to the last,
      and on down again to `f`. */
  lemma LoopReturnsBackward(a: Animation, f: nat)
    requires Playable(a) && f < |a.frames| && a.mode == Loop
    ensures Iterate(a, Cursor(f, Backward), |a.frames|) == Cursor(f, Backward)
    ensures PathTime(a, Cursor(f, Backward), |a.frames|) == TotalTime(a.frames)
  {
    var n, c, top := |a.frames|, Cursor(f, Backward), Cursor(|a.frames| - 1, Backward);
    BackwardFrom(a, f, f);
    IterateSucc(a, c, f);
    PathTimeSucc(a, c, f);
    assert Iterate(a, c, f + 1) == top;
    assert PathTime(a, c, f + 1) == StartTime(a.frames, f + 1);
    var j := n - 1 - f;
    BackwardFrom(a, n - 1, j);
    assert Iterate(a, top, j) == c;
    assert PathTime(a, top, j) == TotalTime(a.frames) - StartTime(a.frames, f + 1);
    TimelineConcat(a, c, f + 1, j);
  }

  /** Loop: from any frame, in either direction, `n` boundaries bring playback back
      to where it was, after exactly the length of one whole pass. */
  lemma LoopReturns(a: Animation, c: Cursor)
    requires Playable(a) && InRange(a, c) && a.mode == Loop
    ensures Iterate(a, c, |a.frames|) == c
    ensures PathTime(a, c, |a.frames|) == TotalTime(a.frames)
  {
    if c.dir == Forward {
      LoopReturnsForward(a, c.frame);
    } else {
      LoopReturnsBackward(a, c.frame);
    }
  }

  /** Loop: from any frame, in either direction, advancing by one more whole pass
      leaves frame, direction and carry as they were. */
  lemma LoopLap(a: Animation, c: Cursor, e: real)
    requires Playable(a) && InRange(a, c) && a.mode == Loop && e >= 0.0
    ensures Advance(a, c, e + TotalTime(a.frames)) == Advance(a, c, e)
  {
    var n := |a.frames|;
    LoopReturns(a, c);
    TimelineCovers(a, c, e);
    var k: nat :| OnScreenAt(a, c, k, e);
    TimelineConcat(a, c, n, k);
    TimelineConcat(a, c, n, k + 1);
    assert n + k + 1 == n + (k + 1);
    assert OnScreenAt(a, c, n + k, e + TotalTime(a.frames));
    AdvanceFollowsTimeline(a, c, e, k);
    AdvanceFollowsTimeline(a, c, e + TotalTime(a.frames), n + k);
  }

  /** PingPong, played forward from the start: frames 0, ..., n - 1 forward, then
      n - 1, ..., 0 backward (so each end frame is shown twice in a row), and
      then the same again every `2 n` boundaries. */
  lemma PingPongBounces(a: Animation, k: nat)
    requires Playable(a) && a.mode == PingPong
    ensures var n := |a.frames|;
      Iterate(a, Start(a, Forward), k)
        == if k < n then Cursor(k, Forward)
           else if k < 2 * n then Cursor(2 * n - 1 - k, Backward)
           else Iterate(a, Start(a, Forward), k - 2 * n)
  {
    var n, s := |a.frames|, Start(a, Forward);
    if k < n {
      ForwardTimeline(a, k);
    } else {
      ForwardTimeline(a, n - 1);
      IterateSucc(a, s, n - 1);
      assert Iterate(a, s, n) == Start(a, Backward);
      if k < 2 * n {
        TimelineConcat(a, s, n, k - n);
        BackwardTimeline(a, k - n);
      } else {
        TimelineConcat(a, s, n, n);
        BackwardTimeline(a, n - 1);
        IterateSucc(a, Start(a, Backward), n - 1);
        assert Iterate(a, s, 2 * n) == s;
        TimelineConcat(a, s, 2 * n, k - 2 * n);
      }
    }
  }
}
