/** Division by a positive step. */
module Arithmetic {

  lemma FloorBounds(x: int, y: int, k: int)
    requires y > 0
    ensures k <= x / y <==> k * y <= x
  {
    var q := x / y;
    assert q * y <= x < q * y + y;
    if k <= q { assert k * y <= q * y; } else { assert k * y >= (q + 1) * y == q * y + y; }
  }

  lemma Multiple(n: int, y: int)
    requires y > 0
    ensures n * y / y == n && n * y % y == 0
    ensures n >= 0 ==> n * y >= 0
  {
    FloorBounds(n * y, y, n);
    FloorBounds(n * y, y, n + 1);
    assert (n + 1) * y == n * y + y;
  }
}
