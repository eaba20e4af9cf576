/** Facts about products, quotients and remainders of plain numbers. */
module Numbers {

  lemma Distribute(a: int, c: int, d: int)
    ensures (a - c) * d == a * d - c * d
  {
  }

  lemma MultiplyMonotone(a: nat, b: nat, d: nat)
    ensures a <= b ==> a * d <= b * d
  {
    if a <= b { Distribute(b, a, d); }
  }

  lemma AtLeastFactor(c: nat, d: nat)
    requires 0 < d
    ensures c <= c * d
  {
    assert c * d == c + c * (d - 1);
  }

  /** Division between two multiples. */
  lemma QuotientBetween(x: nat, lo: nat, hi: nat, d: nat)
    requires 0 < d && lo * d <= x < hi * d
    ensures lo <= x / d < hi
  {
    var q := x / d;
    assert q * d <= x < q * d + d;
    Distribute(q + 1, 1, d);
    MultiplyMonotone(q + 1, lo, d);
    MultiplyMonotone(hi, q, d);
  }

  lemma QuotientNatural(x: nat, d: nat)
    requires 0 < d
    ensures 0 <= x / d
  {
    AtLeastFactor(x + 1, d);
    QuotientBetween(x, 0, x + 1, d);
  }

  /** Halving a number that is even up to its last digit. */
  lemma HalveSum(x: nat, l: nat)
    ensures (2 * x + l) / 2 == x + l / 2 && (2 * x + l) % 2 == l % 2
  {
  }

  lemma ModuloUnique(a: nat, d: nat, q: nat, r: nat)
    requires 0 < d && a == d * q + r && r < d
    ensures a % d == r && a / d == q
  {
    Distribute(a / d, q, d);
    assert (a / d - q) * d == r - a % d;
    if a / d < q { MultiplyMonotone(1, q - a / d, d); Distribute(q, a / d, d); }
    if q < a / d { MultiplyMonotone(1, a / d - q, d); }
  }

  lemma ModuloDouble(a: nat, p: nat)
    requires 0 < p
    ensures a % (2 * p) == a % 2 + 2 * ((a / 2) % p)
  {
    var q, r := (a / 2) / p, (a / 2) % p;
    assert a == (2 * p) * q + (a % 2 + 2 * r);
    ModuloUnique(a, 2 * p, q, a % 2 + 2 * r);
  }

  lemma ModuloAdd(a: nat, b: nat, m: nat)
    requires 0 < m
    ensures (a % m + b) % m == (a + b) % m
  {
    var c := a % m + b;
    var p, q := a / m, c / m;
    assert a == m * p + a % m;
    assert c == m * q + c % m;
    Distribute(p + q, q, m);
    assert a + b == m * (p + q) + c % m;
    ModuloUnique(a + b, m, p + q, c % m);
  }
}
