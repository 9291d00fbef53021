/**
 * The nearest-neighbour upscaler of main.go: `singleThreadResize`, and the
 * sequential path of `main` that sizes its output and calls it.
 */
module Resize {
  import opened Color
  import opened Raster
  import opened Scale
  import opened Traversal

  /**
   * The image the resizer is meant to produce, as a value: `factor * height`
   * rows of `factor * width` pixels, the pixel at `(x, y)` being the input
   * pixel at `(x/factor, y/factor)`. A factor of 0 gives the empty image.
   */
  function Upscaled(img: Image, factor: nat): (out: seq<seq<RGBA>>)
    requires img.Valid()
    ensures |out| == factor * img.height
    ensures forall y :: 0 <= y < |out| ==> |out[y]| == factor * img.width
  {
    if factor == 0 then []
    else
      seq(factor * img.height, y requires 0 <= y < factor * img.height =>
        seq(factor * img.width, x requires 0 <= x < factor * img.width =>
          SourceInBounds(x, factor, img.width);
          SourceInBounds(y, factor, img.height);
          img.rows[SourceCoord(y, factor)][SourceCoord(x, factor)]))
  }

  /**
   * Block replication: input pixel `(i, j)` fills the `factor` by `factor`
   * block of the output whose top-left corner is `(i * factor, j * factor)`.
   */
  lemma {:induction false} UpscaledBlock(img: Image, factor: nat, i: nat, j: nat, dx: nat, dy: nat)
    requires img.Valid()
    requires i < img.width && j < img.height && dx < factor && dy < factor
    ensures j * factor + dy < |Upscaled(img, factor)|
    ensures i * factor + dx < |Upscaled(img, factor)[j * factor + dy]|
    ensures Upscaled(img, factor)[j * factor + dy][i * factor + dx] == img.rows[j][i]
  {
    SourceCoordOfBlock(i, dx, factor);
    SourceCoordOfBlock(j, dy, factor);
    MulMonotonic(i + 1, img.width, factor);
    MulMonotonic(j + 1, img.height, factor);
  }

  /** With the default factor of 1 the output is the input, pixel for pixel. */
  lemma {:induction false} UpscaledIdentity(img: Image)
    requires img.Valid()
    ensures Upscaled(img, 1) == img.rows
  {
    var out := Upscaled(img, 1);
    assert |out| == |img.rows|;
    forall y | 0 <= y < |out|
      ensures out[y] == img.rows[y]
    {
      assert |out[y]| == |img.rows[y]|;
      forall x | 0 <= x < |out[y]|
        ensures out[y][x] == img.rows[y][x]
      {
        SourceCoordOfBlock(x, 0, 1);
        SourceCoordOfBlock(y, 0, 1);
      }
    }
  }

  /** A one-pixel input becomes a `factor` by `factor` square of that pixel. */
  lemma {:induction false} UpscaledSinglePixel(img: Image, factor: nat)
    requires img.Valid() && img.width == 1 && img.height == 1
    ensures |Upscaled(img, factor)| == factor
    ensures forall y :: 0 <= y < factor ==> |Upscaled(img, factor)[y]| == factor
    ensures forall y, x :: 0 <= y < factor && 0 <= x < factor ==> Upscaled(img, factor)[y][x] == img.rows[0][0]
  {
    forall y, x | 0 <= y < factor && 0 <= x < factor
      ensures Upscaled(img, factor)[y][x] == img.rows[0][0]
    {
      UpscaledBlock(img, factor, 0, 0, x, y);
    }
  }

  /**
   * `singleThreadResize(newMaxY, newMaxX, inputImage)` with the global
   * `factor` passed explicitly. It allocates a zeroed `newMaxX` by `newMaxY`
   * buffer and, row by row, sets each pixel `(x, y)` to the copy of
   * `inputImage.At(x/factor, y/factor)`. `writes` records the coordinates
   * in the order they are set. The input is a value and is only read.
   */
  method SingleThreadResize(newMaxY: nat, newMaxX: nat, img: Image, factor: nat)
      returns (out: array2<RGBA>, ghost writes: seq<Point>)
    requires newMaxY > 0 && newMaxX > 0 ==> factor >= 1
    ensures fresh(out)
    ensures out.Length0 == newMaxY && out.Length1 == newMaxX
    ensures forall y, x :: 0 <= y < newMaxY && 0 <= x < newMaxX ==>
              out[y, x] == img.At(SourceCoord(x, factor), SourceCoord(y, factor))
    ensures writes == RowMajor(newMaxX, newMaxY)
  {
    out := new RGBA[newMaxY, newMaxX]((_, _) => Transparent);
    writes := [];
    var y := 0;
    while y < newMaxY
      invariant 0 <= y <= newMaxY
      invariant writes == RowMajor(newMaxX, y)
      invariant forall j, i :: 0 <= j < y && 0 <= i < newMaxX ==>
                  out[j, i] == img.At(SourceCoord(i, factor), SourceCoord(j, factor))
    {
      var x := 0;
      while x < newMaxX
        invariant 0 <= x <= newMaxX
        invariant writes == RowMajor(newMaxX, y) + RowPrefix(x, y)
        invariant forall j, i :: 0 <= j < y && 0 <= i < newMaxX ==>
                    out[j, i] == img.At(SourceCoord(i, factor), SourceCoord(j, factor))
        invariant forall i :: 0 <= i < x ==>
                    out[y, i] == img.At(SourceCoord(i, factor), SourceCoord(y, factor))
      {
        var source := img.At(x / factor, y / factor);
        var wide := Channels(source);
        CopyIsVerbatim(source);
        out[y, x] := Narrow(wide);
        writes := writes + [Point(x, y)];
        assert RowPrefix(x + 1, y) == RowPrefix(x, y) + [Point(x, y)];
        x := x + 1;
      }
      y := y + 1;
    }
  }

  /**
   * `SizeOverflow`: an output extent `factor * maxX` or `factor * maxY` does
   * not fit in an `int`. `BufferTooLarge`: the extents fit, but the
   * `4 * newMaxX * newMaxY` bytes of the RGBA buffer do not, where
   * `image.NewRGBA` panics.
   */
  datatype ResizeError = SizeOverflow | BufferTooLarge

  datatype Result<T> = Ok(value: T) | Err(error: ResizeError)

  /** The byte length of a `newMaxX` by `newMaxY` RGBA buffer, or `None` when it does not fit in an `int`. */
  function PixLength(newMaxX: nat, newMaxY: nat): Option<nat>
  {
    if 4 * newMaxX * newMaxY <= MaxInt then Some(4 * newMaxX * newMaxY) else None
  }

  /**
   * The sequential path of `main` once the input is decoded: compute
   * `newMaxY` and `newMaxX` from the input's bounds and call
   * `singleThreadResize`. The products are checked: an output extent that
   * does not fit in an `int` is an error rather than a wrapped size. A
   * buffer whose byte length does not fit in an `int` is the error that
   * stands for `image.NewRGBA`'s panic.
   */
  method Resize(img: Image, factor: nat) returns (result: Result<array2<RGBA>>)
    requires img.Valid()
    ensures result == Err(SizeOverflow) <==> factor * img.width > MaxInt || factor * img.height > MaxInt
    ensures result == Err(BufferTooLarge) <==>
              factor * img.width <= MaxInt && factor * img.height <= MaxInt
              && 4 * (factor * img.width) * (factor * img.height) > MaxInt
    ensures result.Ok? ==> fresh(result.value)
    ensures result.Ok? ==>
              result.value.Length0 == factor * img.height && result.value.Length1 == factor * img.width
    ensures result.Ok? ==> forall y, x :: 0 <= y < result.value.Length0 && 0 <= x < result.value.Length1 ==>
              result.value[y, x] == Upscaled(img, factor)[y][x]
  {
    var newMaxY := ScaledExtent(factor, img.height);
    var newMaxX := ScaledExtent(factor, img.width);
    if newMaxY.None? || newMaxX.None? {
      return Err(SizeOverflow);
    }
    if PixLength(newMaxX.value, newMaxY.value).None? {
      return Err(BufferTooLarge);
    }
    var out, _ := SingleThreadResize(newMaxY.value, newMaxX.value, img, factor);
    forall y, x | 0 <= y < out.Length0 && 0 <= x < out.Length1
      ensures out[y, x] == Upscaled(img, factor)[y][x]
    {
      SourceInBounds(x, factor, img.width);
      SourceInBounds(y, factor, img.height);
    }
    return Ok(out);
  }
}
