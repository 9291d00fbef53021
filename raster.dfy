/**
 * The decoded input image, as the resizer sees it: a rectangle of `color.RGBA`
 * pixels whose bounds start at the origin, read only through `At`.
 */
module Raster {
  import opened Color

  /**
   * An image whose `Bounds()` is `Rect(0, 0, width, height)`; `rows[y][x]`
   * is the pixel at `(x, y)`.
   */
  datatype Image = Image(width: nat, height: nat, rows: seq<seq<RGBA>>)
  {
    /** The rows match the bounds: `height` rows of `width` pixels each. */
    ghost predicate Valid()
    {
      |rows| == height && forall y :: 0 <= y < |rows| ==> |rows[y]| == width
    }

    /** `At(x, y)`: the pixel at `(x, y)`, or the zero colour outside the bounds. */
    function At(x: int, y: int): (p: RGBA)
      ensures Valid() && 0 <= x < width && 0 <= y < height ==> p == rows[y][x]
      ensures Valid() && !(0 <= x < width && 0 <= y < height) ==> p == Transparent
    {
      if 0 <= y < |rows| && 0 <= x < |rows[y]| then rows[y][x] else Transparent
    }
  }
}
