/** Small facts about natural-number multiplication, division and remainder
    that the index arithmetic of the image layout rests on. */
module Arith {

  /** Division and remainder recover the quotient and remainder of q*b + r. */
  lemma DivModUnique(q: nat, b: nat, r: nat)
    requires r < b
    ensures (q * b + r) / b == q
    ensures (q * b + r) % b == r
  {
    var x := q * b + r;
    var q' := x / b;
    if q' > q {
      MulMonotone(q + 1, q', b);
    } else if q' < q {
      MulMonotone(q' + 1, q, b);
    }
  }

  /** Euclidean division: x is quotient times divisor plus remainder. */
  lemma DivMod(x: nat, b: nat)
    requires b > 0
    ensures x == (x / b) * b + x % b && x % b < b
  {
  }

  lemma AddMul(a: nat, b: nat, m: nat)
    ensures (a + b) * m == a * m + b * m
  {
  }

  lemma MulMonotone(a: nat, a': nat, b: nat)
    requires a <= a'
    ensures a * b <= a' * b
  {
  }

  /** A number below a*b has quotient below b when divided by a. */
  lemma DivBelow(x: nat, a: nat, b: nat)
    requires x < a * b
    ensures a > 0
    ensures x / a < b
  {
  }

  /** An index below width * (hs * ns) * 4 splits into a lane (last 4), a
      column (below width), a row within a block of hs rows, and a block
      below ns, and those parts rebuild it. */
  lemma Unflatten(k: nat, width: nat, hs: nat, ns: nat)
    requires k < width * (hs * ns) * 4
    ensures width > 0 && hs > 0
    ensures 0 <= k / 4 / width && 0 <= k / 4 / width / hs < ns
    ensures ((k / 4 / width / hs * hs + k / 4 / width % hs) * width + k / 4 % width) * 4 + k % 4 == k
  {
    var pixels := width * (hs * ns);
    assert k < 4 * pixels;
    DivBelow(k, 4, pixels);
    var pix := k / 4;
    DivBelow(pix, width, hs * ns);
    var row := pix / width;
    DivBelow(row, hs, ns);
    DivMod(k, 4);
    DivMod(pix, width);
    DivMod(row, hs);
  }

  /** An index built from a row below `rows` and a column below `cols`
      stays below rows * cols. */
  lemma RowColBelow(row: nat, rows: nat, col: nat, cols: nat)
    requires row < rows && col < cols
    ensures row * cols + col < rows * cols
  {
    MulMonotone(row + 1, rows, cols);
    assert (row + 1) * cols == row * cols + cols;
  }
}
