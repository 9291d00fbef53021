/**
 * The integer arithmetic of main.go that sizes the output and maps each
 * output coordinate back to its source: `newMaxX := factor * maxX`,
 * `newMaxY := factor * maxY`, and `x/factor`, `y/factor`.
 */
module Scale {
  /** The bounds of Go's `int` on a 64-bit platform. */
  const MinInt: int := -0x8000_0000_0000_0000
  const MaxInt: int := 0x7fff_ffff_ffff_ffff
  const Modulus: int := 0x1_0000_0000_0000_0000

  predicate IsInt(v: int)
  {
    MinInt <= v <= MaxInt
  }

  /** Two's-complement wrap-around of a mathematical integer into Go's `int`. */
  function Wrap(v: int): (w: int)
    ensures IsInt(w)
    ensures (v - w) % Modulus == 0
    ensures IsInt(v) ==> w == v
  {
    (v - MinInt) % Modulus + MinInt
  }

  /** `factor * extent` as main.go computes it: an `int` product that wraps on overflow. */
  function ScaledExtentAsWritten(factor: int, extent: int): (n: int)
    requires IsInt(factor) && IsInt(extent)
    ensures IsInt(n)
    ensures (factor * extent - n) % Modulus == 0
  {
    Wrap(factor * extent)
  }

  /**
   * A factor of 2^62 + 1 on a 4 by 4 image makes main.go compute a 4 by 4
   * output, not a 2^64 + 4 by 2^64 + 4 one, and each of its coordinates
   * maps back to source coordinate 0: every output pixel copies pixel (0, 0).
   */
  lemma ScaledExtentWrapsAround()
    ensures ScaledExtentAsWritten(0x4000_0000_0000_0001, 4) == 4
    ensures 0x4000_0000_0000_0001 * 4 != 4
    ensures forall o :: 0 <= o < 4 ==> SourceCoord(o, 0x4000_0000_0000_0001) == 0
  {
  }

  datatype Option<T> = None | Some(value: T)

  /** The output extent `factor * extent`, or `None` when it does not fit in an `int`. */
  function ScaledExtent(factor: nat, extent: nat): (n: Option<nat>)
    ensures n.Some? <==> factor * extent <= MaxInt
    ensures n.Some? ==> n.value == factor * extent
  {
    if factor * extent <= MaxInt then Some(factor * extent) else None
  }

  /**
   * The checked extent agrees with main.go's product wherever it is defined,
   * and is undefined exactly where main.go's product has wrapped around.
   */
  lemma {:induction false} ScaledExtentAgrees(factor: nat, extent: nat)
    requires factor <= MaxInt && extent <= MaxInt
    ensures ScaledExtent(factor, extent).Some? <==> ScaledExtentAsWritten(factor, extent) == factor * extent
    ensures ScaledExtent(factor, extent).Some? ==> ScaledExtent(factor, extent).value == ScaledExtentAsWritten(factor, extent)
  {
  }

  lemma {:induction false} MulMonotonic(a: nat, b: nat, n: nat)
    requires a <= b
    ensures a * n <= b * n
  {
  }

  /** Division by `n` of `q * n + r`, for a remainder `r < n`, gives back `q` and `r`. */
  lemma {:induction false} DivModOf(q: nat, r: nat, n: nat)
    requires r < n
    ensures (q * n + r) / n == q
    ensures (q * n + r) % n == r
  {
    var m := q * n + r;
    var d, k := m / n, m % n;
    assert m == d * n + k;
    if d > q {
      MulMonotonic(q + 1, d, n);
      assert false;
    } else if d < q {
      MulMonotonic(d + 1, q, n);
      assert false;
    }
  }

  /**
   * The source coordinate of output coordinate `o`: `o/factor`. Both operands
   * are non-negative, so Go's truncating division and Dafny's agree. The
   * source coordinate is the one whose block of `factor` output coordinates
   * holds `o`.
   */
  function SourceCoord(o: nat, factor: nat): (s: nat)
    requires factor >= 1
    ensures s * factor <= o < s * factor + factor
  {
    o / factor
  }

  /** Every output coordinate below `factor * extent` reads a source coordinate below `extent`. */
  lemma {:induction false} SourceInBounds(o: nat, factor: nat, extent: nat)
    requires factor >= 1 && o < factor * extent
    ensures SourceCoord(o, factor) < extent
  {
  }

  /** All `factor` output coordinates of the block of source coordinate `s` map back to `s`. */
  lemma {:induction false} SourceCoordOfBlock(s: nat, d: nat, factor: nat)
    requires d < factor
    ensures s * factor + d < (s + 1) * factor
    ensures SourceCoord(s * factor + d, factor) == s
  {
    DivModOf(s, d, factor);
  }
}
