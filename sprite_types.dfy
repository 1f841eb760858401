// The value types of an animated sprite (Sprite.h): rectangles and images on a
// sheet, frames, animations with their end-of-sequence mode, and the animation
// group that every animated sprite shares read-only.
module SpriteTypes {

  /** A rectangle on the sheet (SDL_Rect); an all-zero rectangle means "the whole sheet". */
  datatype Rect = Rect(x: int, y: int, w: int, h: int)

  /** One image of a group: where it lies on the sheet and where its origin is. */
  datatype Image = Image(rect: Rect, offsetX: int, offsetY: int)

  /** One frame of an animation: the index of its image in the group's image list and its duration. */
  datatype Frame = Frame(index: int, time: real)

  /** What an animation does when playback reaches the end of its frame list. */
  datatype Mode =
    | Once      // freeze on the last frame
    | Loop      // start over from the first frame
    | PingPong  // reverse the direction of playback

  datatype Animation = Animation(mode: Mode, frames: seq<Frame>)

  /** The images of one sheet and the animations over them. */
  datatype Group = Group(images: seq<Image>, animations: seq<Animation>)

  datatype Direction = Forward | Backward

  function Reverse(d: Direction): (r: Direction)
    ensures r != d
  {
    if d == Forward then Backward else Forward
  }

  /** An animation the stepping can play: at least one frame, and every frame lasts a positive time. */
  predicate Playable(a: Animation) {
    && |a.frames| > 0
    && forall i :: 0 <= i < |a.frames| ==> a.frames[i].time > 0.0
  }

  /** Every frame of `a` names one of the group's `imageCount` images. */
  predicate ImagesInRange(a: Animation, imageCount: int) {
    forall i :: 0 <= i < |a.frames| ==> 0 <= a.frames[i].index < imageCount
  }

  predicate WellFormed(g: Group) {
    forall i :: 0 <= i < |g.animations| ==>
      Playable(g.animations[i]) && ImagesInRange(g.animations[i], |g.images|)
  }

  /** The image displayed for frame `frame` of animation `animation`. */
  function ImageOf(g: Group, animation: nat, frame: nat): (img: Image)
    requires WellFormed(g) && animation < |g.animations|
    requires frame < |g.animations[animation].frames|
    ensures img in g.images
  {
    g.images[g.animations[animation].frames[frame].index]
  }
}
