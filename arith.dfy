/** Euclidean remainders, as the seat arithmetic and the pot split use them. */
module Remainders {

  /** The remainder is the unique r below n with x == d * n + r. */
  lemma ModUnique(x: int, d: int, r: int, n: int)
    requires n > 0 && 0 <= r < n && x == d * n + r
    ensures x % n == r
  {
    var d' := x / n;
    var r' := x % n;
    assert x == d' * n + r';
    assert (d - d') * n == r' - r;
    if d - d' >= 1 {
      MulAtLeast(d - d', n);
    } else if d' - d >= 1 {
      MulAtLeast(d' - d, n);
    }
  }

  lemma MulAtLeast(m: int, n: int)
    requires m >= 1 && n > 0
    ensures m * n >= n
  {
    assert m * n == (m - 1) * n + n;
  }

  /** Moving one seat on from seat `a % n` is moving one seat on from `a`. */
  lemma ModSucc(a: int, n: int)
    requires n > 0
    ensures (a % n + 1) % n == (a + 1) % n
  {
    var q := a / n;
    var r := a % n;
    assert a == q * n + r;
    if r + 1 < n {
      ModUnique(r + 1, 0, r + 1, n);
      ModUnique(a + 1, q, r + 1, n);
    } else {
      ModUnique(r + 1, 1, 0, n);
      assert a + 1 == (q + 1) * n;
      ModUnique(a + 1, q + 1, 0, n);
    }
  }
}
