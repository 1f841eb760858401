// Worked cases of the three modes, computed on the model.
module Scenarios {
  import opened SpriteTypes
  import opened Playback

  /** Frames of 1, 2 and 3 time units, looping. */
  const Looping := Animation(Loop, [Frame(0, 1.0), Frame(1, 2.0), Frame(2, 3.0)])

  /** Three frames of 1 time unit each, playing back and forth. */
  const Bouncing := Animation(PingPong, [Frame(0, 1.0), Frame(1, 1.0), Frame(2, 1.0)])

  /** Looping frames of 1, 2 and 3: after exactly one pass (6 units) the first frame
      is back on an exact boundary; after 7 units the first frame's time has run out
      exactly, so the second frame is on screen with nothing carried. */
  lemma LoopLapExample()
    ensures Advance(Looping, Start(Looping, Forward), 6.0) == Stop(Cursor(0, Forward), Boundary)
    ensures Advance(Looping, Start(Looping, Forward), 7.0) == Stop(Cursor(1, Forward), Boundary)
  {
  }

  /** Three ping-pong frames of 1 unit: at 2.5 the last frame is half over; at 3 the
      direction reverses on the last frame, which stays on screen; at 4.5 playback
      is half way through the middle frame going backward. */
  lemma PingPongExample()
    ensures Advance(Bouncing, Start(Bouncing, Forward), 2.5) == Stop(Cursor(2, Forward), Within(0.5))
    ensures Advance(Bouncing, Start(Bouncing, Forward), 3.0) == Stop(Cursor(2, Backward), Boundary)
    ensures Advance(Bouncing, Start(Bouncing, Forward), 4.5) == Stop(Cursor(1, Backward), Within(0.5))
  {
  }
}
