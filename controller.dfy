/**
 * Thumbnail and centre-crop geometry of the camera controller
 * (components/processor/code/controller/controller.py): both scale the
 * image to a height of 480 pixels keeping its aspect ratio.
 */
module Controller {
  /** The thumbnail height. */
  const SMALL_HEIGHT: int := 480

  /** Python's `int()` on a float: truncation toward zero. */
  function Trunc(x: real): int {
    if x >= 0.0 then x.Floor else -((-x).Floor)
  }

  /** `int(width * 480 / height)`: the width that keeps the aspect ratio
      at height 480. `/` is true division; a zero height raises. */
  function ScaledWidth(height: nat, width: nat): (w: nat)
    requires height > 0
    ensures w * height <= width * SMALL_HEIGHT < (w + 1) * height
  {
    var w := width * SMALL_HEIGHT / height;
    assert width * SMALL_HEIGHT == height * w + (width * SMALL_HEIGHT) % height;
    w
  }

  /** _get_small_size: (width, height) of the thumbnail. */
  function SmallSize(height: nat, width: nat): (int, int)
    requires height > 0
  {
    (ScaledWidth(height, width), SMALL_HEIGHT)
  }

  /** The crop box as (top, bottom, left, right). */
  datatype Corners = Corners(y1: int, y2: int, x1: int, x2: int)

  /** _get_crop_corners. */
  function CropCorners(height: nat, width: nat): Corners
    requires height > 0
  {
    var h := SMALL_HEIGHT;
    var w := ScaledWidth(height, width);
    var midx := width / 2;
    var midy := height / 2;
    var x1 := Trunc(midx as real - w as real / 2.0);
    var y1 := Trunc(midy as real - h as real / 2.0);
    Corners(y1, y1 + h, x1, x1 + w)
  }

  /** The crop is as large as the thumbnail, 480 rows exactly centred and
      its columns centred to within one pixel; the left edge is the ideal
      left edge `width/2 - w/2` truncated toward zero. */
  lemma CropCornersSpec(height: nat, width: nat)
    requires height > 0
    ensures var c := CropCorners(height, width);
      && c.y2 - c.y1 == SMALL_HEIGHT
      && c.x2 - c.x1 == SmallSize(height, width).0
      && c.y1 == height / 2 - SMALL_HEIGHT / 2
      && c.y1 + c.y2 == 2 * (height / 2)
      && -1 <= c.x1 + c.x2 - 2 * (width / 2) <= 1
      && var r := (width / 2) as real - SmallSize(height, width).0 as real / 2.0;
         (r >= 0.0 ==> c.x1 as real <= r < c.x1 as real + 1.0)
         && (r < 0.0 ==> c.x1 as real - 1.0 < r <= c.x1 as real)
  {
    var w := ScaledWidth(height, width);
    var midx := width / 2;
    var r := midx as real - w as real / 2.0;
    var x1 := Trunc(r);
    assert r - 1.0 < x1 as real < r + 1.0;
  }
}
