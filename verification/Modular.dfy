/** Facts about remainders that the solver does not find by itself. */
module Modular {

  /** The remainder is the only number below the modulus that differs from `x` by a multiple of it. */
  lemma ModUnique(x: int, m: int, q: int, r: int)
    requires 0 <= r < m && x == q * m + r
    ensures x % m == r
  {
    var d := x / m - q;
    assert (d >= 1 ==> d * m >= m) && (d <= -1 ==> d * m <= -m);
    assert d * m == r - x % m by { assert x == (x / m) * m + x % m; }
  }

  /** Counting up by one wraps to zero exactly at the modulus. */
  lemma ModSuccessor(x: int, m: int)
    requires m > 0
    ensures (x + 1) % m == if x % m + 1 == m then 0 else x % m + 1
  {
    var q, r := x / m, x % m;
    if r + 1 == m {
      assert x + 1 == (q + 1) * m + 0;
      ModUnique(x + 1, m, q + 1, 0);
    } else {
      ModUnique(x + 1, m, q, r + 1);
    }
  }

  /** An inner remainder can be dropped. */
  lemma ModAdd(x: int, y: int, m: int)
    requires m > 0
    ensures (x % m + y) % m == (x + y) % m
  {
    var q := x / m;
    var k, r := (x % m + y) / m, (x % m + y) % m;
    assert x == q * m + x % m && x % m + y == k * m + r;
    assert x + y == (q + k) * m + r;
    ModUnique(x + y, m, q + k, r);
  }

  /** Fewer than `m` consecutive positions are pairwise different modulo `m`. */
  lemma ModDistinct(x: int, i: int, j: int, m: int)
    requires 0 <= i < j < i + m
    ensures (x + i) % m != (x + j) % m
  {
    var q, r := (x + i) / m, (x + i) % m;
    assert x + i == q * m + r;
    if r + (j - i) < m {
      ModUnique(x + j, m, q, r + (j - i));
    } else {
      assert x + j == (q + 1) * m + (r + (j - i) - m);
      ModUnique(x + j, m, q + 1, r + (j - i) - m);
    }
  }
}
