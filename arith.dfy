/** Row-major layout arithmetic shared by the pixel unpackers and the audio de-interleaver:
  * element (r, c) of a grid `width` wide sits at `r * width + c`. */
module Arith {
  lemma MulMonotone(n: nat, a: nat, b: nat)
    requires a <= b
    ensures n * a <= n * b
  {
  }

  /** The same, stated as an implication so that it can be used without a case split. */
  lemma MulMonotoneIf(n: int, a: int, b: int)
    ensures 0 <= n && a <= b ==> n * a <= n * b
  {
    if 0 <= n && a <= b {
      assert n * b - n * a == n * (b - a);
    }
  }

  /** Row `r`, column `c` of a `width` by `height` grid lies inside it. */
  lemma RowMajorBound(r: nat, c: nat, width: nat, height: nat)
    requires r < height && c < width
    ensures r * width + c < width * height
  {
    assert r * width + c < r * width + width == (r + 1) * width;
    MulMonotone(width, r + 1, height);
  }

  /** Every position of the grid has a row and a column inside it. */
  lemma RowMajorSplit(q: nat, width: nat, height: nat)
    requires q < width * height
    ensures width > 0 && q / width < height && q % width < width
  {
    if width > 0 {
      MulMonotoneIf(width, height, q / width);
    }
  }

  /** Division by `width` recovers the row and the column. */
  lemma RowMajorDivMod(r: nat, c: nat, width: nat)
    requires c < width
    ensures (r * width + c) / width == r && (r * width + c) % width == c
  {
    var q := r * width + c;
    var k := r - q / width;
    assert width * k == q % width - c;
    MulMonotoneIf(width, 1, k);
    MulMonotoneIf(width, 1, -k);
    assert width * -k == -(width * k);
  }
}
