/** Multiplication and division facts that the solver does not find by itself. */
module Arithmetic {

  function Max(a: int, b: int): int { if a < b then b else a }

  function One(b: bool): int { if b then 1 else 0 }

  lemma MulMono(a: int, b: int, c: int)
    requires a <= b && 0 <= c
    ensures a * c <= b * c
  {
    assert (b - a) * c >= 0;
  }

  lemma OneMore(each: int, n: int)
    ensures each * (n + 1) == each * n + each
    ensures (n + 1) * each == n * each + each
  {
  }

  /** A multiple of `d` strictly between -d and d is 0. */
  lemma NoSmallMultiple(d: int, k: int)
    requires -d < d * k < d
    ensures k == 0
  {
    if k >= 1 {
      MulMono(1, k, d);
    } else if k <= -1 {
      MulMono(k, -1, d);
    }
  }

  lemma DivModUnique(x: int, d: int, q: int, r: int)
    requires 0 <= r < d && x == d * q + r
    ensures x / d == q && x % d == r
  {
    assert d * (x / d - q) == d * (x / d) - d * q;
    NoSmallMultiple(d, x / d - q);
  }

  lemma DivModIs(x: int, d: int)
    requires d > 0
    ensures x == d * (x / d) + x % d && 0 <= x % d < d
  {
  }

  lemma MultipleUnique(x: int, y: int, d: int)
    requires d > 0 && x % d == 0 && y % d == 0 && -d < x - y < d
    ensures x == y
  {
    assert d * (x / d - y / d) == d * (x / d) - d * (y / d);
    NoSmallMultiple(d, x / d - y / d);
  }

  lemma MultipleMod(k: int, d: int)
    requires d > 0
    ensures (k * d) % d == 0
  {
    DivModUnique(k * d, d, k, 0);
  }

  lemma MultipleAdd(x: int, y: int, d: int)
    requires d > 0 && x % d == 0 && y % d == 0
    ensures (x + y) % d == 0 && (x - y) % d == 0
  {
    assert x + y == d * (x / d + y / d) && x - y == d * (x / d - y / d);
    DivModUnique(x + y, d, x / d + y / d, 0);
    DivModUnique(x - y, d, x / d - y / d, 0);
  }

  /** Multiples below the next multiple. */
  lemma MultipleBelow(x: int, y: int, d: int)
    requires d > 0 && x % d == 0 && y % d == 0 && x < y + d
    ensures x <= y
  {
    if x > y {
      MultipleUnique(x, y, d);
    }
  }
}
