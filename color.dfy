/**
 * The part of Go's image/color that the resizer's pixel copy passes through:
 * an 8-bit RGBA colour, its widening to 16-bit channels by `RGBA()`, and the
 * truncating conversion `uint8(...)` back to 8 bits.
 */
module Color {
  /** An 8-bit channel value, Go's `uint8`. */
  newtype Byte = x: int | 0 <= x < 256

  /** Go's `color.RGBA`: four 8-bit channels. */
  datatype RGBA = RGBA(r: Byte, g: Byte, b: Byte, a: Byte)

  /** The zero `color.RGBA`, what a freshly allocated buffer holds and what `At` gives outside the bounds. */
  const Transparent := RGBA(0, 0, 0, 0)

  /** The four channels that `Color.RGBA()` returns, as 16-bit values held in a `uint32`. */
  datatype RGBA64 = RGBA64(r: nat, g: nat, b: nat, a: nat)

  /** One channel of `color.RGBA.RGBA()`: `v := uint32(c); v |= v << 8`, the byte repeated in both halves. */
  function Widen(c: Byte): (w: nat)
    ensures w < 0x1_0000
    ensures w / 0x100 == c as int
  {
    c as int * 0x100 + c as int
  }

  /** Go's `uint8(v)` on an unsigned value: keep the low eight bits. */
  function Truncate(v: nat): (c: Byte)
    ensures (v - c as int) % 0x100 == 0
  {
    (v % 0x100) as Byte
  }

  /** `c.RGBA()` for an 8-bit colour `c`. */
  function Channels(c: RGBA): (w: RGBA64)
    ensures w.r < 0x1_0000 && w.g < 0x1_0000 && w.b < 0x1_0000 && w.a < 0x1_0000
    ensures w.r / 0x100 == c.r as int && w.g / 0x100 == c.g as int
    ensures w.b / 0x100 == c.b as int && w.a / 0x100 == c.a as int
  {
    RGBA64(Widen(c.r), Widen(c.g), Widen(c.b), Widen(c.a))
  }

  /** `color.RGBA{uint8(r), uint8(g), uint8(b), uint8(a)}` built from the 16-bit channels. */
  function Narrow(w: RGBA64): (c: RGBA)
    ensures (w.r - c.r as int) % 0x100 == 0 && (w.g - c.g as int) % 0x100 == 0
    ensures (w.b - c.b as int) % 0x100 == 0 && (w.a - c.a as int) % 0x100 == 0
  {
    RGBA(Truncate(w.r), Truncate(w.g), Truncate(w.b), Truncate(w.a))
  }

  /** Widening a channel to 16 bits and truncating it back gives the channel unchanged. */
  lemma {:induction false} ChannelRoundTrip(c: Byte)
    ensures Truncate(Widen(c)) == c
  {
  }

  /** The copy the resizer makes of each source pixel is verbatim. */
  lemma {:induction false} CopyIsVerbatim(c: RGBA)
    ensures Narrow(Channels(c)) == c
  {
    ChannelRoundTrip(c.r);
    ChannelRoundTrip(c.g);
    ChannelRoundTrip(c.b);
    ChannelRoundTrip(c.a);
  }
}
