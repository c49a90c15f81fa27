/** Division facts the queue and bucket arguments rest on. */
module Arithmetic {
  lemma MulNonNeg(a: int, b: int)
    requires a >= 0 && b >= 0
    ensures a * b >= 0
  {
  }

  lemma MulMono(a: int, b: int, c: int)
    requires a <= b && c >= 0
    ensures a * c <= b * c
  {
    MulNonNeg(b - a, c);
    assert (b - a) * c == b * c - a * c;
  }

  /** Distinct multiples of c are at least c apart. */
  lemma MultiplesApart(a: int, b: int, c: int)
    requires c >= 0
    ensures a < b ==> a * c + c <= b * c
  {
    if a < b {
      MulMono(a + 1, b, c);
      assert (a + 1) * c == a * c + c;
    }
  }

  /** Quotient and remainder are the only ones. */
  lemma DivModUnique(x: int, q: int, r: int, c: int)
    requires c > 0 && 0 <= r < c && x == q * c + r
    ensures x / c == q && x % c == r
  {
    assert x == (x / c) * c + x % c && 0 <= x % c < c;
    MultiplesApart(q, x / c, c);
    MultiplesApart(x / c, q, c);
  }

  /** Adding one whole round leaves the remainder alone. */
  lemma ModPlus(x: int, c: int)
    requires c > 0
    ensures (x + c) % c == x % c
  {
    assert x == (x / c) * c + x % c;
    assert (x / c + 1) * c == (x / c) * c + c;
    DivModUnique(x + c, x / c + 1, x % c, c);
  }

  /** Within one round, remainders differ. */
  lemma ModDiffer(p: int, q: int, c: int)
    requires c > 0 && p < q < p + c
    ensures p % c != q % c
  {
    assert p == (p / c) * c + p % c && q == (q / c) * c + q % c;
    MultiplesApart(p / c, q / c, c);
    MultiplesApart(q / c, p / c, c);
  }

  lemma MulAssoc(a: int, b: int, c: int)
    ensures a * (b * c) == (a * b) * c
  {
  }

  lemma MulDistributes(a: int, b: int, c: int)
    ensures (a + b) * c == a * c + b * c
  {
  }

  /** Reducing by a multiple of c first does not change the remainder by c. */
  lemma ModOfMod(x: int, m: int, c: int, d: int)
    requires m > 0 && c > 0 && d > 0 && d == m * c
    ensures (x % d) % c == x % c
  {
    var a, w := x / d, x % d;
    assert x == a * d + w && w == (w / c) * c + w % c;
    MulAssoc(a, m, c);
    MulDistributes(a * m, w / c, c);
    DivModUnique(x, a * m + w / c, w % c, c);
  }

  function Rem(x: int, c: int): int
    requires c > 0
  {
    x % c
  }

  lemma RemOne(x: int)
    ensures Rem(x, 1) == 0
  {
  }

  /** One more low-order bit. */
  lemma DoubleRem(x: int, h: int, c: int)
    requires h > 0 && c == 2 * h
    ensures Rem(x, c) == 2 * Rem(x / 2, h) + x % 2
  {
    var y := x / 2;
    assert y == (y / h) * h + y % h;
    assert (y / h) * c == 2 * ((y / h) * h);
    DivModUnique(x, y / h, 2 * (y % h) + x % 2, c);
  }
}
