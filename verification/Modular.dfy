/** Remainders. */
module Modular {

  lemma MulAtLeast(k: int, m: int)
    requires 1 <= k && 0 <= m
    ensures m <= k * m
  {
    assert k * m == (k - 1) * m + m;
    assert 0 <= (k - 1) * m;
  }

  lemma ModUnique(x: int, m: int, q: int, r: int)
    requires 0 <= r < m && x == q * m + r
    ensures x % m == r && x / m == q
  {
    var q', r' := x / m, x % m;
    assert x == q' * m + r';
    assert (q - q') * m == q * m - q' * m == r' - r;
    assert (q' - q) * m == q' * m - q * m == r - r';
    if q > q' {
      MulAtLeast(q - q', m);
    } else if q < q' {
      MulAtLeast(q' - q, m);
    }
  }

  /** Numbers that differ by a multiple of `m` have the same remainder. */
  lemma ModShift(x: int, y: int, m: int, k: int)
    requires 0 < m && x == y + k * m
    ensures x % m == y % m
  {
    var q, r := y / m, y % m;
    assert x == (q + k) * m + r;
    ModUnique(x, m, q + k, r);
  }

  lemma ModSuccessor(x: int, m: int)
    requires 0 < m
    ensures (x + 1) % m == if x % m == m - 1 then 0 else x % m + 1
  {
    var q, r := x / m, x % m;
    if r == m - 1 {
      assert x + 1 == (q + 1) * m + 0;
      ModUnique(x + 1, m, q + 1, 0);
    } else {
      ModUnique(x + 1, m, q, r + 1);
    }
  }
}
