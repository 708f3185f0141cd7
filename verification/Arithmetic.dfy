/** Facts about quotients, remainders and row-major positions. */
module Arithmetic {

  lemma MulAtLeast(z: int, d: int)
    requires z >= 1 && d >= 0
    ensures z * d >= d
  {
    assert z * d == (z - 1) * d + d;
  }

  lemma MulNegates(z: int, d: int)
    ensures (0 - z) * d == 0 - z * d
  {
  }

  lemma OnlyZero(z: int, d: int)
    requires 0 - d < z * d < d
    ensures z == 0
  {
    if z >= 1 { MulAtLeast(z, d); }
    if z <= -1 {
      MulAtLeast(0 - z, d);
      MulNegates(z, d);
    }
  }

  /** A row-major position determines its row and column. */
  lemma RowUnique(x: int, y: int, x': int, y': int, width: int)
    requires 0 <= y < width && 0 <= y' < width && x * width + y == x' * width + y'
    ensures x == x' && y == y'
  {
    assert (x - x') * width == y' - y;
    OnlyZero(x - x', width);
  }

  lemma Remainder(x: nat, d: nat, q: nat, r: nat)
    requires x == q * d + r && r < d
    ensures x % d == r && x / d == q
  {
    assert x == (x / d) * d + x % d;
    RowUnique(q, r, x / d, x % d, d);
  }

  /** Row `x` of a table of `rows` rows ends inside it. */
  lemma RowInside(x: nat, rows: nat, width: nat)
    requires x < rows
    ensures x * width + width == (x + 1) * width <= rows * width
  {
    assert rows * width == (x + 1) * width + (rows - x - 1) * width;
    assert (rows - x - 1) * width >= 0;
  }

  lemma CellInside(x: nat, y: nat, rows: nat, width: nat)
    requires x < rows && y < width
    ensures x * width + y < rows * width
  {
    RowInside(x, rows, width);
  }

  /** Different rows do not overlap. */
  lemma RowsApart(x: nat, x': nat, y: nat, y': nat, width: nat)
    requires x != x' && y < width && y' < width
    ensures x * width + y != x' * width + y'
  {
    if x * width + y == x' * width + y' { RowUnique(x, y, x', y', width); }
  }
}
