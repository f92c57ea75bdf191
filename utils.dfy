/** Sprite-sheet rectangles and `slice`, which cuts a horizontal strip of a
    sheet into equal-width animation frames. */
module Utils {
  import opened Wrappers
  import opened Geometry

  /** A rectangle of the sprite sheet, with an optional drawing anchor. */
  datatype Sprite = Sprite(x: int, y: int, w: int, h: int, pivot: Option<Point>)

  /** How many steps of `step` a loop from 0 takes before reaching `extent`:
      the ceiling of `extent / step`, and none for an empty extent. */
  function StepCount(extent: int, step: int): (n: nat)
    requires step > 0 || extent <= 0
  {
    if extent <= 0 then 0 else (extent + step - 1) / step
  }

  /** The step count is the least n whose n steps cover the extent. */
  lemma StepCountCovers(extent: int, step: int)
    requires step > 0 && extent > 0
    ensures StepCount(extent, step) * step >= extent
    ensures (StepCount(extent, step) - 1) * step < extent
  {
    var a := extent + step - 1;
    var n, r := a / step, a % step;
    assert a == n * step + r && 0 <= r < step;
    assert (n - 1) * step == n * step - step;
  }

  /** Multiplying by a non-negative factor keeps an order. */
  lemma MulMonotonic(a: int, b: int, c: int)
    requires a <= b && c >= 0
    ensures a * c <= b * c
  {
    assert (b - a) * c >= 0;
  }

  /** A loop stepping by `step` from 0 stops after exactly the step count. */
  lemma StepCountUnique(extent: int, step: int, n: int)
    requires step > 0 && extent > 0
    requires n * step >= extent && (n - 1) * step < extent
    ensures n == StepCount(extent, step)
  {
    var c := StepCount(extent, step);
    StepCountCovers(extent, step);
    if n > c {
      MulMonotonic(c, n - 1, step);
    } else if n < c {
      MulMonotonic(n, c - 1, step);
    }
  }

  /** The frames `slice` cuts: frame i starts `i * width` to the right of the
      strip's left edge, is `width` wide, and keeps every other field. */
  function SliceFrames(sprite: Sprite, width: int): (frames: seq<Sprite>)
    requires width > 0 || sprite.w <= 0
  {
    seq(StepCount(sprite.w, width), i => sprite.(x := sprite.x + i * width, w := width))
  }

  /** `slice(sprite, width)`. The loop only ends if it steps forward, so a
      non-positive width is only admitted for an empty strip. */
  method Slice(sprite: Sprite, width: int) returns (frames: seq<Sprite>)
    requires width > 0 || sprite.w <= 0
    ensures frames == SliceFrames(sprite, width)
  {
    frames := [];
    var x := sprite.x;
    while x < sprite.x + sprite.w
      invariant x == sprite.x + |frames| * width
      invariant sprite.w <= 0 ==> frames == []
      invariant sprite.w > 0 && |frames| > 0 ==> (|frames| - 1) * width < sprite.w
      invariant forall i :: 0 <= i < |frames| ==> frames[i] == sprite.(x := sprite.x + i * width, w := width)
      decreases sprite.x + sprite.w - x
    {
      frames := frames + [sprite.(x := x, w := width)];
      x := x + width;
    }
    if sprite.w > 0 {
      StepCountUnique(sprite.w, width, |frames|);
    }
    assert |frames| == |SliceFrames(sprite, width)|;
    forall i | 0 <= i < |frames| ensures frames[i] == SliceFrames(sprite, width)[i] {
    }
  }

  /** Every frame has the requested width and the strip's other fields; for
      a positive width there are ceil(w / width) of them, in strictly
      increasing x order, each starting inside the strip. */
  lemma SliceFramesLayout(sprite: Sprite, width: int)
    requires width > 0
    ensures var frames := SliceFrames(sprite, width);
      && (sprite.w <= 0 ==> frames == [])
      && (sprite.w > 0 ==> |frames| * width >= sprite.w > (|frames| - 1) * width)
      && (forall i :: 0 <= i < |frames| ==>
            frames[i].w == width && frames[i].y == sprite.y && frames[i].h == sprite.h &&
            frames[i].pivot == sprite.pivot &&
            sprite.x <= frames[i].x < sprite.x + sprite.w)
      && (forall i, j :: 0 <= i < j < |frames| ==> frames[i].x < frames[j].x)
  {
    var frames := SliceFrames(sprite, width);
    var n := |frames|;
    if sprite.w > 0 {
      StepCountCovers(sprite.w, width);
      forall i | 0 <= i < n
        ensures sprite.x <= frames[i].x < sprite.x + sprite.w
      {
        MulMonotonic(0, i, width);
        MulMonotonic(i, n - 1, width);
      }
      forall i, j | 0 <= i < j < n ensures frames[i].x < frames[j].x {
        MulStrictlyMonotonic(i, j, width);
      }
    }
  }

  /** Multiplying by a positive factor keeps a strict order. */
  lemma MulStrictlyMonotonic(a: int, b: int, c: int)
    requires a < b && c > 0
    ensures a * c < b * c
  {
    assert (b - a) * c > 0;
  }
}
