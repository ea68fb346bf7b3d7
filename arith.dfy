// Integer division facts used by the index maps and the byte codecs.
// Dafny's / and % are Euclidean; every operand here is non-negative, where
// Euclidean and truncating division agree.

module Arith {
  /// Division and remainder are fixed by any decomposition n == d * q + r
  /// with 0 <= r < d.
  lemma DivModUnique(n: int, d: int, q: int, r: int)
    requires 0 < d && 0 <= r < d && n == d * q + r
    ensures n / d == q && n % d == r
  {
    var q', r' := n / d, n % d;
    assert d * (q - q') == r' - r;
    if q > q' {
      MulAtLeast(d, q - q');
    } else if q < q' {
      MulAtLeast(d, q' - q);
    }
  }

  lemma MulAtLeast(d: int, k: int)
    requires d > 0 && k >= 1
    ensures d * k >= d
  {
  }

  /// Adding a multiple of d does not change the remainder.
  lemma ModAddMultiple(z: int, m: int, d: int)
    requires d > 0
    ensures (z + d * m) % d == z % d
  {
    DivModUnique(z + d * m, d, z / d + m, z % d);
  }

  /// Equal remainders stay equal after multiplying both sides by k.
  lemma ModMulCongruent(x: int, y: int, k: int, d: int)
    requires d > 0 && x % d == y % d
    ensures (x * k) % d == (y * k) % d
  {
    assert x * k == y * k + d * ((x / d - y / d) * k);
    ModAddMultiple(y * k, (x / d - y / d) * k, d);
  }

  /// Splitting n by b and then by c is splitting it by b * c.
  lemma DivDiv(n: int, b: int, c: int)
    requires n >= 0 && b > 0 && c > 0
    ensures n / b / c == n / (b * c)
    ensures (n / b) % c * b + n % b == n % (b * c)
  {
    var q, r := n / b / c, (n / b) % c;
    assert n / b == c * q + r;
    assert n == (b * c) * q + (b * r + n % b);
    MulAtLeast(b, c - r);
    DivModUnique(n, b * c, q, b * r + n % b);
  }

  /// A number below d * k divided by d is below k.
  lemma DivBelow(n: int, d: int, k: int)
    requires 0 <= n < d * k && d > 0
    ensures n / d < k
  {
    var q := n / d;
    assert d * q <= n;
    MulLeq(d, k, q);
  }

  /// If d * q < d * k then q < k.
  lemma MulLeq(d: int, k: int, q: int)
    requires d > 0 && d * q < d * k
    ensures q < k
  {
  }

  /** A digit a below m and a higher part b below n make a number below m * n,
      and / and % by m take it apart again. */
  lemma MixedRadix(a: int, b: int, m: int, n: int)
    requires 0 <= a < m && 0 <= b < n
    ensures 0 <= a + m * b < m * n
    ensures (a + m * b) % m == a && (a + m * b) / m == b
  {
    assert m * b <= m * (n - 1) by { MulMono(m, b, n - 1); }
    DivModUnique(a + m * b, m, b, a);
  }

  lemma MulMono(m: int, x: int, y: int)
    requires m >= 0 && x <= y
    ensures m * x <= m * y
  {
  }

  /** a * b by repeated addition. Being recursive, it is unfolded only
      where a proof asks for it, which keeps products of index terms away
      from the solver's nonlinear arithmetic. */
  function Prod(a: nat, b: nat): nat
  {
    if a == 0 then 0 else b + Prod(a - 1, b)
  }

  lemma {:induction false} ProdIsMul(a: nat, b: nat)
    ensures Prod(a, b) == a * b
  {
    if a > 0 {
      ProdIsMul(a - 1, b);
    }
  }
}
