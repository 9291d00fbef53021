/**
 * The order in which singleThreadResize's nested loops visit the output
 * grid: `for y := 0; y < newMaxY; y++ { for x := 0; x < newMaxX; x++ { … } }`.
 */
module Traversal {
  import opened Scale

  /** An output coordinate `(x, y)`. */
  datatype Point = Point(x: nat, y: nat)

  /** The first `n` points of row `y`, left to right. */
  function RowPrefix(n: nat, y: nat): seq<Point>
  {
    seq(n, i requires 0 <= i < n => Point(i, y))
  }

  /** The points of a `w` by `h` grid, rows top to bottom, each row left to right. */
  function RowMajor(w: nat, h: nat): (s: seq<Point>)
    ensures |s| == w * h
  {
    if h == 0 then []
    else
      assert w * h == w * (h - 1) + w;
      RowMajor(w, h - 1) + RowPrefix(w, h - 1)
  }

  /** The `i`-th point visited is column `i % w` of row `i / w`. */
  lemma {:induction false} RowMajorAt(w: nat, h: nat, i: nat)
    requires i < w * h
    ensures |RowMajor(w, h)| == w * h
    ensures RowMajor(w, h)[i] == Point(i % w, i / w)
  {
    if h == 0 {
      assert false;
    }
    var prev := (h - 1) * w;
    assert w * h == prev + w;
    assert w * (h - 1) == prev;
    var s := RowMajor(w, h);
    assert s == RowMajor(w, h - 1) + RowPrefix(w, h - 1);
    if i < prev {
      RowMajorAt(w, h - 1, i);
      assert s[i] == RowMajor(w, h - 1)[i];
    } else {
      var x := i - prev;
      assert s[i] == RowPrefix(w, h - 1)[x];
      DivModOf(h - 1, x, w);
    }
  }

  /** The `i`-th point visited lies inside the grid. */
  lemma {:induction false} RowMajorInGrid(w: nat, h: nat, i: nat)
    requires i < w * h
    ensures |RowMajor(w, h)| == w * h
    ensures RowMajor(w, h)[i].x < w && RowMajor(w, h)[i].y < h
  {
    RowMajorAt(w, h, i);
    if i / w >= h {
      MulMonotonic(h, i / w, w);
      assert false;
    }
  }

  /** Point `(x, y)` of the grid is the one visited at step `y * w + x`. */
  lemma {:induction false} RowMajorIndexOf(w: nat, h: nat, p: Point)
    requires p.x < w && p.y < h
    ensures p.y * w + p.x < w * h
    ensures |RowMajor(w, h)| == w * h
    ensures RowMajor(w, h)[p.y * w + p.x] == p
  {
    var i := p.y * w + p.x;
    MulMonotonic(p.y + 1, h, w);
    RowMajorAt(w, h, i);
    DivModOf(p.y, p.x, w);
  }

  /** Two different steps visit two different points. */
  lemma {:induction false} RowMajorDistinct(w: nat, h: nat, i: nat, j: nat)
    requires i < j < w * h
    ensures |RowMajor(w, h)| == w * h
    ensures RowMajor(w, h)[i] != RowMajor(w, h)[j]
  {
    RowMajorAt(w, h, i);
    RowMajorAt(w, h, j);
    assert i == (i / w) * w + i % w;
    assert j == (j / w) * w + j % w;
  }

  /**
   * The visit order writes every point of the grid, nothing outside it, and
   * no point twice.
   */
  lemma {:induction false} RowMajorExactlyOnce(w: nat, h: nat)
    ensures |RowMajor(w, h)| == w * h
    ensures forall i :: 0 <= i < |RowMajor(w, h)| ==> RowMajor(w, h)[i].x < w && RowMajor(w, h)[i].y < h
    ensures forall p: Point :: p.x < w && p.y < h ==> p in RowMajor(w, h)
    ensures forall i, j :: 0 <= i < j < |RowMajor(w, h)| ==> RowMajor(w, h)[i] != RowMajor(w, h)[j]
  {
    var s := RowMajor(w, h);
    forall i | 0 <= i < |s|
      ensures s[i].x < w && s[i].y < h
    {
      RowMajorInGrid(w, h, i);
    }
    forall p: Point | p.x < w && p.y < h
      ensures p in s
    {
      RowMajorIndexOf(w, h, p);
    }
    forall i, j | 0 <= i < j < |s|
      ensures s[i] != s[j]
    {
      RowMajorDistinct(w, h, i, j);
    }
  }
}
