/** Division facts the solver does not find by itself. */
module Arith {
  lemma MulAtLeast(k: int, n: int)
    requires k >= 1 && n >= 0
    ensures k * n >= n
  {
  }

  lemma DivMod(x: nat, n: nat)
    requires n > 0
    ensures x == (x / n) * n + x % n
  {
  }

  lemma RemainderUnique(n: nat, a: int, r: int, b: int, s: int)
    requires a * n + r == b * n + s && 0 <= r < n && 0 <= s < n
    ensures r == s && a == b
  {
    assert (a - b) * n == s - r;
    assert (b - a) * n == r - s;
    if a > b { MulAtLeast(a - b, n); }
    if b > a { MulAtLeast(b - a, n); }
  }

  lemma DivModOf(q: nat, n: nat, i: nat)
    requires i < n
    ensures (q * n + i) % n == i && (q * n + i) / n == q
  {
    var x := q * n + i;
    DivMod(x, n);
    RemainderUnique(n, q, i, x / n, x % n);
  }
}
