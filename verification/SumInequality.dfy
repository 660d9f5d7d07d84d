/** Chebyshev's sum inequality: sequences in the same order multiply to more, rank by rank, than evenly spread ones. */
module SumInequality {
  import opened RankBounds

  /** A name for the product, which the proofs by induction do not look into. */
  ghost predicate IsProduct(mul: (real, real) -> real) {
    forall x, y :: TimesAt(mul, x, y)
  }

  ghost predicate TimesAt(mul: (real, real) -> real, x: real, y: real) {
    mul(x, y) == x * y
  }

  lemma SameOrder(a: real, x: real, b: real, y: real)
    requires a >= x && b >= y
    ensures a * y + x * b <= a * b + x * y
  {
    var u, v := a - x, b - y;
    assert u * v >= 0.0;
    assert u * v == a * b - a * y - x * b + x * y;
  }

  /** What is summed up so far: the first values, the second values, their products, and the number of ranks. */
  datatype Partial = Partial(first: real, second: real, products: real, ranks: real)

  ghost predicate Next(mul: (real, real) -> real, s: Partial, a: real, b: real, t: Partial) {
    t.first == s.first + a && t.second == s.second + b && t.products == s.products + mul(a, b) && t.ranks == s.ranks + 1.0
  }

  /** Against smaller values `x` and `y`. */
  ghost predicate Against(mul: (real, real) -> real, s: Partial, x: real, y: real) {
    mul(s.first, y) + mul(x, s.second) <= s.products + mul(s.ranks, mul(x, y))
  }

  ghost predicate Balanced(mul: (real, real) -> real, s: Partial) {
    mul(s.first, s.second) <= mul(s.ranks, s.products)
  }

  lemma AgainstArithmetic(q: real, a: real, y: real, x: real, r: real, b: real, d: real, n: real)
    requires a >= x && b >= y && q * y + x * r <= d + n * (x * y)
    ensures (q + a) * y + x * (r + b) <= d + a * b + (n + 1.0) * (x * y)
  {
    SameOrder(a, x, b, y);
  }

  lemma AgainstNext(mul: (real, real) -> real, s: Partial, a: real, b: real, t: Partial, x: real, y: real)
    requires IsProduct(mul) && Next(mul, s, a, b, t) && Against(mul, s, x, y) && a >= x && b >= y
    ensures Against(mul, t, x, y)
  {
    assert TimesAt(mul, s.first, y) && TimesAt(mul, x, s.second) && TimesAt(mul, s.ranks, mul(x, y)) && TimesAt(mul, x, y);
    assert TimesAt(mul, t.first, y) && TimesAt(mul, x, t.second) && TimesAt(mul, t.ranks, mul(x, y)) && TimesAt(mul, a, b);
    AgainstArithmetic(s.first, a, y, x, s.second, b, s.products, s.ranks);
  }

  lemma BalanceArithmetic(a: real, x: real, b: real, y: real, d: real, n: real)
    requires a * b <= n * d && a * y + x * b <= d + n * (x * y)
    ensures (a + x) * (b + y) <= (n + 1.0) * (d + x * y)
  {
    var xy := x * y;
    assert (a + x) * (b + y) == a * b + (a * y + x * b) + xy;
    assert (n + 1.0) * (d + xy) == n * d + n * xy + d + xy;
  }

  lemma BalanceNext(mul: (real, real) -> real, s: Partial, x: real, y: real, t: Partial)
    requires IsProduct(mul) && Next(mul, s, x, y, t) && Against(mul, s, x, y) && Balanced(mul, s)
    ensures Balanced(mul, t)
  {
    assert TimesAt(mul, s.first, y) && TimesAt(mul, x, s.second) && TimesAt(mul, s.ranks, mul(x, y)) && TimesAt(mul, x, y);
    assert TimesAt(mul, s.first, s.second) && TimesAt(mul, s.ranks, s.products);
    assert TimesAt(mul, t.first, t.second) && TimesAt(mul, t.ranks, t.products);
    BalanceArithmetic(s.first, x, s.second, y, s.products, s.ranks);
  }

  lemma NothingYet(mul: (real, real) -> real, s: Partial, x: real, y: real)
    requires IsProduct(mul) && s == Partial(0.0, 0.0, 0.0, 0.0)
    ensures Against(mul, s, x, y) && Balanced(mul, s)
  {
    assert TimesAt(mul, s.first, y) && TimesAt(mul, x, s.second) && TimesAt(mul, s.ranks, mul(x, y)) && TimesAt(mul, x, y);
    assert TimesAt(mul, s.first, s.second) && TimesAt(mul, s.ranks, s.products);
  }

  ghost function SumsTo(a: seq<real>, b: seq<real>, n: nat): Partial {
    Partial(Prefix(a, n), Prefix(b, n), Prefix(RankProduct(a, b), n), n as real)
  }

  lemma SumsNext(mul: (real, real) -> real, a: seq<real>, b: seq<real>, n: nat)
    requires IsProduct(mul)
    ensures Next(mul, SumsTo(a, b, n), At(a, n), At(b, n), SumsTo(a, b, n + 1))
  {
    RankProductAt(a, b, n);
    assert TimesAt(mul, At(a, n), At(b, n));
  }

  lemma {:induction false} AgainstLast(mul: (real, real) -> real, a: seq<real>, b: seq<real>, n: nat, x: real, y: real)
    requires IsProduct(mul) && forall i: nat :: i < n ==> At(a, i) >= x && At(b, i) >= y
    ensures Against(mul, SumsTo(a, b, n), x, y)
  {
    if n == 0 {
      NothingYet(mul, SumsTo(a, b, 0), x, y);
    } else {
      AgainstLast(mul, a, b, n - 1, x, y);
      SumsNext(mul, a, b, n - 1);
      AgainstNext(mul, SumsTo(a, b, n - 1), At(a, n - 1), At(b, n - 1), SumsTo(a, b, n), x, y);
    }
  }

  lemma DescendingRanks(a: seq<real>, i: nat, j: nat)
    requires Descending(a) && i <= j
    ensures At(a, i) >= At(a, j)
  {
  }

  /** The sums of two descending sequences multiply to at most `n` times the sum of their rank-wise product. */
  lemma {:induction false} Chebyshev(mul: (real, real) -> real, a: seq<real>, b: seq<real>, n: nat)
    requires IsProduct(mul) && Descending(a) && Descending(b)
    ensures Balanced(mul, SumsTo(a, b, n))
  {
    if n == 0 {
      NothingYet(mul, SumsTo(a, b, 0), 0.0, 0.0);
    } else {
      var k := n - 1;
      Chebyshev(mul, a, b, k);
      forall i: nat | i < k ensures At(a, i) >= At(a, k) && At(b, i) >= At(b, k) {
        DescendingRanks(a, i, k);
        DescendingRanks(b, i, k);
      }
      AgainstLast(mul, a, b, k, At(a, k), At(b, k));
      SumsNext(mul, a, b, k);
      BalanceNext(mul, SumsTo(a, b, k), At(a, k), At(b, k), SumsTo(a, b, n));
    }
  }

  lemma TheProduct() returns (mul: (real, real) -> real)
    ensures IsProduct(mul)
  {
    mul := (x: real, y: real) => x * y;
    forall x, y ensures TimesAt(mul, x, y) {
    }
  }

  /** Evenly spread, the second sum meets the first, or less than that. */
  lemma EvenlySpread(mul: (real, real) -> real, s: Partial, x: real, y: real)
    requires IsProduct(mul) && Balanced(mul, s) && 0.0 <= x <= s.first && s.second >= 0.0 && s.ranks > 0.0 && s.products <= y
    ensures 0.0 <= Even(x, s.second, s.ranks) <= y
  {
    assert TimesAt(mul, s.first, s.second) && TimesAt(mul, s.ranks, s.products);
    EvenlyAtMost(x, s.first, s.second, s.ranks, s.products);
  }

  /** `x` keys, each of which meets the `n`-th part of `y`. */
  function Even(x: real, y: real, n: real): real
    requires n > 0.0
  {
    x * (y / n)
  }

  lemma Quotient(x: real, y: real)
    requires y > 0.0 && x >= 0.0
    ensures x / y >= 0.0 && x / y * y == x
  {
  }

  lemma Ordered(x: real, y: real, z: real)
    requires x >= 0.0 && y <= z
    ensures x * y <= x * z
  {
  }

  lemma Cancelled(n: real, x: real, y: real)
    requires n > 0.0 && n * x <= n * y
    ensures x <= y
  {
  }

  lemma Reassociated(n: real, a: real, q: real, b: real)
    requires q * n == b
    ensures n * (a * q) == a * b
  {
    assert n * (a * q) == a * (q * n);
  }

  lemma EvenlyAtMost(x: real, a: real, b: real, n: real, d: real)
    requires 0.0 <= x <= a && b >= 0.0 && n > 0.0 && a * b <= n * d
    ensures 0.0 <= Even(x, b, n) <= d
  {
    var q := b / n;
    Quotient(b, n);
    Ordered(q, x, a);
    Ordered(q, 0.0, x);
    Reassociated(n, a, q, b);
    Cancelled(n, a * q, d);
  }
}
