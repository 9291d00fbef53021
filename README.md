# resize: a verified model of the nearest-neighbour upscaler

`resize` is a command-line tool that enlarges a PNG (or JPEG) image by a whole
factor. `main` reads the decoded image's bounds, computes the output size
`newMaxY := factor * maxY`, `newMaxX := factor * maxX`, and hands it to
`singleThreadResize`. That function allocates a zeroed RGBA buffer of the new
size and fills it with two nested loops, rows top to bottom and each row left
to right. Each output pixel `(x, y)` gets a copy of the input pixel at
`(x/factor, y/factor)`. The copy goes through Go's `Color.RGBA()`, which widens
each 8-bit channel to 16 bits, and back through `uint8(...)`.

The model has five modules:

- `Color` (color.dfy): Go's `color.RGBA` and the widen-then-truncate channel copy.
- `Raster` (raster.dfy): the decoded input image, a value read only through a total `At`. Outside the bounds, `At` gives the zero colour, like `image.RGBA.At`.
- `Scale` (scale.dfy): the size products, both as Go's wrapping 64-bit `int` and as a checked product, and the coordinate mapping `o/factor`.
- `Traversal` (traversal.dfy): the row-major order in which the nested loops visit the output grid.
- `Resize` (resize.dfy): `Upscaled`, the reference definition of the output as a value, with its properties. Also `SingleThreadResize`, the loop over a freshly allocated `array2`, proved against that definition, and `Resize`, the sequential path of `main`.

The global `factor` becomes an explicit parameter. The input image is a
datatype value and no method has a `modifies` clause, so only the freshly
allocated output buffer can change. `SingleThreadResize` returns a ghost trace
of the coordinates it writes, in order. `RowMajorExactlyOnce` shows that this
trace covers every output coordinate, never leaves the grid and never repeats
a coordinate.

A factor of 0 is accepted, as in the code. The products are then 0, the loops
never run, and no division happens, so the result is an empty image. The
model follows the code and does not reject factor 0. `SingleThreadResize` requires a non-zero factor only
when it would divide, that is, when both extents are positive. An input with
zero width or height also gives an empty output, with no error.

## Model

| member | source | states |
|---|---|---|
| `Color.Widen` | main.go:111 | `RGBA()` widens a channel to a 16-bit value whose high byte is the channel |
| `Color.Channels` | main.go:111 | `At(...).RGBA()` on an 8-bit colour gives four 16-bit channels, each with the source channel as its high byte |
| `Color.Truncate` | main.go:112 | `uint8(v)` keeps the 8-bit value congruent to `v` mod 256 |
| `Color.Narrow` | main.go:112 | `color.RGBA{uint8(r), uint8(g), uint8(b), uint8(a)}`: each 8-bit channel is congruent mod 256 to its 16-bit channel |
| `Raster.Image.At` | main.go:111 | `inputImage.At(x, y)` is the pixel at `(x, y)` inside the bounds and the zero colour outside them |
| `Color.ChannelRoundTrip` | main.go:111-112 | widening a channel and truncating it with `uint8(...)` gives the channel back, for every 8-bit value |
| `Color.CopyIsVerbatim` | main.go:111-112 | the colour written for a source pixel equals that pixel, all four channels |
| `Scale.Wrap` | main.go:80-81 | Go's `int` wrap-around: the result is in the 64-bit range, congruent to the input mod 2^64, and unchanged when the input already fits |
| `Scale.ScaledExtentAsWritten` | main.go:80-81 | `factor * maxX` as written: an `int` congruent to the true product mod 2^64 |
| `Scale.ScaledExtentWrapsAround` | main.go:80-81 | factor 2^62+1 on a 4-pixel extent yields an output extent of 4 instead of 2^64+4 |
| `Scale.ScaledExtent` | main.go:80-81 | the checked output extent never exceeds the `int` range |
| `Scale.ScaledExtentAgrees` | main.go:80-81 | the checked extent exists exactly when Go's product did not wrap, and then equals Go's product |
| `Scale.SourceCoord` | main.go:111 | `o/factor` is the coordinate whose block of `factor` output coordinates contains `o` |
| `Scale.SourceInBounds` | main.go:111 | for `factor >= 1`, an output coordinate below `factor * extent` reads a source coordinate below `extent` |
| `Scale.SourceCoordOfBlock` | main.go:111 | every coordinate `s*factor + d` with `d < factor` maps back to `s` |
| `Traversal.RowMajor` | main.go:109-110 | the visit order of the nested loops has exactly `newMaxX * newMaxY` visits |
| `Traversal.RowMajorAt` | main.go:109-110 | visit `i` is column `i % newMaxX` of row `i / newMaxX` |
| `Traversal.RowMajorInGrid` | main.go:109-110 | every visited coordinate lies inside `[0, newMaxX) × [0, newMaxY)` |
| `Traversal.RowMajorIndexOf` | main.go:109-110 | coordinate `(x, y)` is visited at step `y * newMaxX + x` |
| `Traversal.RowMajorDistinct` | main.go:109-110 | two different steps visit two different coordinates |
| `Traversal.RowMajorExactlyOnce` | main.go:109-110 | the visit order covers the whole output grid, stays inside it and visits no coordinate twice |
| `Resize.Upscaled` | main.go:80-81 | the intended output has `factor * maxY` rows of `factor * maxX` pixels |
| `Resize.UpscaledBlock` | main.go:111 | input pixel `(i, j)` fills the solid `factor × factor` output block `[i*factor, (i+1)*factor) × [j*factor, (j+1)*factor)` |
| `Resize.UpscaledIdentity` | main.go:40 | with the default factor 1 the output equals the input pixel for pixel |
| `Resize.UpscaledSinglePixel` | main.go:108-113 | a 1×1 input becomes a `factor × factor` square of its one pixel |
| `Resize.SingleThreadResize` | main.go:105-116 | returns a fresh `newMaxY × newMaxX` buffer whose pixel `(x, y)` is `At(x/factor, y/factor)`, written in row-major order |
| `Resize.Resize` | main.go:77-88 | errs with `SizeOverflow` exactly when an output extent overflows `int`, and with `BufferTooLarge` exactly when the extents fit but `4 * newMaxX * newMaxY` bytes do not (where `image.NewRGBA` panics); otherwise returns a fresh `factor*maxY × factor*maxX` buffer equal to `Upscaled` pixel for pixel |

## Findings

| source | as written | input that shows it | evidently intended | confidence | as-written member | corrected member |
|---|---|---|---|---|---|---|
| main.go:80-81 | `newMaxX := factor * maxX` is a Go `int` product and wraps silently | `--factor=4611686018427387905` (2^62+1) on a 4×4 image gives `newMaxX == newMaxY == 4`, so the output is 4×4 and every pixel copies source pixel (0, 0) | an output `factor * maxX` wide, or an error when that size cannot be represented | medium; not executed | `Scale.ScaledExtentWrapsAround` | `Scale.ScaledExtentAgrees` |

`Resize.Resize` uses the checked `Scale.ScaledExtent` and returns
`Err(SizeOverflow)` where the code would wrap. On an image whose height is
not a multiple of 4, the wrapped width comes with a huge height, and
`image.NewRGBA` panics instead of producing an output.

## Left out

- `concurrentResize` (main.go:119-131): it starts one goroutine per pixel and returns without waiting for them. A sequential model would not match it. Its per-pixel body is the same as the sequential one.
- Flag parsing, usage text, opening and creating files, `image.Decode`, `png.Encode` and the exit codes of `main` (main.go:39-102): command-line and I/O glue around library codecs.
- The progress messages printed by `fmt.Printf` (main.go:106, main.go:120): output only.
- Colour models other than `color.RGBA`: a decoded JPEG (`YCbCr`) or non-premultiplied PNG converts through library code that is not part of this model. Only the 8-bit RGBA channel round trip is modelled.
- Negative factors and negative extents: `image.Rect` canonicalises them, which is library behaviour. The model takes `factor` and the extents as `nat`.
- The byte layout of `image.RGBA` (`Pix` with stride `4 * width`) and the bounds check inside `SetRGBA`: the output is an `array2<RGBA>` indexed `[y, x]`, and every write is proved to be in bounds.
- Input bounds whose minimum is not the origin: `main` reads only `Bounds().Max`, and decoded images start at the origin.
- Resize.SingleThreadResize: allocating the output never fails in the model. `image.NewRGBA` (main.go:108) panics when `4 * newMaxX * newMaxY` exceeds `int`; `Resize.Resize` models that panic as `Err(BufferTooLarge)`, but `SingleThreadResize` called directly with such extents still returns a buffer.
- Resize.Resize: running out of memory while allocating a buffer whose byte length does fit in an `int` is not modelled; the model then returns `Ok`.
- resize_test.go: test drivers and benchmarks with no assertions.
