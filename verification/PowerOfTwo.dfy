/** The 64-bit word arithmetic of the queue: `ceilToPow2` and the slot mask.  A word is a natural
    number below 2^64; the bitwise operators are defined bit by bit. */
module PowerOfTwo {
  import opened Blocks
  import opened Numbers

  function Pow2(k: nat): nat
    ensures 0 < Pow2(k)
  {
    if k == 0 then 1 else 2 * Pow2(k - 1)
  }

  const WORD_BITS: nat := 64

  function Or(a: nat, b: nat): nat
    decreases a + b
  {
    if a == 0 && b == 0 then 0
    else (if a % 2 == 1 || b % 2 == 1 then 1 else 0) + 2 * Or(a / 2, b / 2)
  }

  function And(a: nat, b: nat): nat
    decreases a + b
  {
    if a == 0 && b == 0 then 0
    else (if a % 2 == 1 && b % 2 == 1 then 1 else 0) + 2 * And(a / 2, b / 2)
  }

  function ShiftRight(a: nat, k: nat): nat {
    var d := Pow2(k);
    QuotientNatural(a, d);
    a / d
  }

  // ---------------------------------------------------------------------------------------------
  // Powers
  // ---------------------------------------------------------------------------------------------

  lemma {:induction false} Pow2Add(a: nat, b: nat)
    ensures Pow2(a + b) == Pow2(a) * Pow2(b)
  {
    if a > 0 {
      Pow2Add(a - 1, b);
      assert Pow2(a) * Pow2(b) == 2 * (Pow2(a - 1) * Pow2(b));
    }
  }

  lemma {:induction false} Pow2Monotone(a: nat, b: nat)
    requires a < b
    ensures 2 * Pow2(a) <= Pow2(b)
  {
    if a + 1 < b { Pow2Monotone(a, b - 1); }
  }

  /** Every positive number lies between two neighbouring powers of two. */
  lemma {:induction false} HighestBit(x: nat) returns (k: nat)
    requires 0 < x
    ensures Pow2(k) <= x < Pow2(k + 1)
  {
    k := 0;
    if 1 < x {
      k := HighestBit(x / 2);
      k := k + 1;
    }
  }

  // ---------------------------------------------------------------------------------------------
  // Or
  // ---------------------------------------------------------------------------------------------

  lemma {:induction false} OrZero(a: nat)
    ensures Or(a, 0) == a
  {
    if a > 0 { OrZero(a / 2); }
  }

  lemma {:induction false} OrAtLeast(a: nat, b: nat)
    ensures b <= Or(a, b)
    decreases a + b
  {
    if a != 0 || b != 0 { OrAtLeast(a / 2, b / 2); }
  }

  lemma OrHalves(a: nat, b: nat)
    ensures Or(a, b) == (if a % 2 == 1 || b % 2 == 1 then 1 else 0) + 2 * Or(a / 2, b / 2)
  {
  }

  lemma OrSplitStep(x: nat, l: nat, b: nat, p: nat)
    requires Or(x + l / 2, b / 2) == x + Or(l / 2, b / 2) && Or(l / 2, b / 2) < p
    ensures Or(2 * x + l, b) == 2 * x + Or(l, b) && Or(l, b) < 2 * p
  {
    HalveSum(x, l);
    OrHalves(2 * x + l, b);
    OrHalves(l, b);
  }

  function ShiftLeft(h: nat, m: nat): nat {
    if m == 0 then h else 2 * ShiftLeft(h, m - 1)
  }

  lemma {:induction false} ShiftLeftMultiplies(h: nat, m: nat)
    ensures ShiftLeft(h, m) == h * Pow2(m)
  {
    if m > 0 {
      ShiftLeftMultiplies(h, m - 1);
      assert h * (2 * Pow2(m - 1)) == 2 * (h * Pow2(m - 1));
    }
  }

  lemma {:induction false} OrShifted(h: nat, l: nat, b: nat, m: nat)
    requires l < Pow2(m) && b < Pow2(m)
    ensures Or(ShiftLeft(h, m) + l, b) == ShiftLeft(h, m) + Or(l, b)
    ensures Or(l, b) < Pow2(m)
  {
    if m == 0 {
      OrZero(h);
    } else {
      OrShifted(h, l / 2, b / 2, m - 1);
      OrSplitStep(ShiftLeft(h, m - 1), l, b, Pow2(m - 1));
    }
  }

  /** Bits above position `m` pass through unchanged when the other operand is below 2^m. */
  lemma OrSplit(h: nat, l: nat, b: nat, m: nat)
    requires l < Pow2(m) && b < Pow2(m)
    ensures Or(h * Pow2(m) + l, b) == h * Pow2(m) + Or(l, b)
    ensures Or(l, b) < Pow2(m)
  {
    ShiftLeftMultiplies(h, m);
    OrShifted(h, l, b, m);
  }

  // ---------------------------------------------------------------------------------------------
  // Smearing
  // ---------------------------------------------------------------------------------------------

  /** The highest bit of `x` is bit `k`, and the `r` highest places are all ones. */
  ghost predicate TopOnes(x: nat, k: nat, r: nat) {
    x < Pow2(k + 1) && Pow2(k + 1) - (if r <= k then Pow2(k + 1 - r) else 1) <= x
  }

  /** The shifted copy of `r` leading ones among `m + r` places, on plain numbers:
      `a` is 2^m, `d` is 2^r and `c` is 2^(m-r). */
  lemma CopyManyOnes(x: nat, a: nat, d: nat, c: nat)
    requires 0 < c && 0 < d && a == c * d && a * d - a <= x < a * d
    ensures 0 <= a - c <= x / d < a
  {
    AtLeastFactor(c, d);
    Distribute(a, c, d);
    QuotientBetween(x, a - c, a, d);
  }

  lemma CopyFewOnes(x: nat, a: nat, d: nat)
    requires 0 < a <= d && a * d - a <= x < a * d
    ensures a - 1 <= x / d < a
  {
    assert (a - 1) * d == a * d - d;
    QuotientBetween(x, a - 1, a, d);
  }

  /** The shifted copy has `m` bits, its `r` highest ones set. */
  lemma ShiftedCopy(x: nat, k: nat, r: nat, m: nat)
    requires m + r == k + 1 && TopOnes(x, k, r) && 0 < r <= k
    ensures ShiftRight(x, r) < Pow2(m)
    ensures Pow2(m) - (if r <= m then Pow2(m - r) else 1) <= ShiftRight(x, r)
  {
    Pow2Add(m, r);
    if r <= m {
      Pow2Add(m - r, r);
      CopyManyOnes(x, Pow2(m), Pow2(r), Pow2(m - r));
    } else {
      Pow2Monotone(m, r);
      CopyFewOnes(x, Pow2(m), Pow2(r));
    }
  }

  /** One `x |= x >> r` doubles the run of leading ones. */
  lemma SmearStep(x: nat, k: nat, r: nat)
    requires TopOnes(x, k, r) && 0 < r
    ensures TopOnes(Or(x, ShiftRight(x, r)), k, 2 * r)
  {
    if k < r {
      if k + 1 < r { Pow2Monotone(k + 1, r); }
      QuotientBetween(x, 0, 1, Pow2(r));
      OrZero(x);
    } else {
      SmearLow(x, k, r, k + 1 - r);
    }
  }

  lemma LeadingOnes(k: nat, r: nat, m: nat)
    requires m + r == k + 1
    ensures (Pow2(r) - 1) * Pow2(m) == Pow2(k + 1) - Pow2(m)
  {
    Pow2Add(r, m);
    Distribute(Pow2(r), 1, Pow2(m));
  }

  lemma SmearLow(x: nat, k: nat, r: nat, m: nat)
    requires TopOnes(x, k, r) && 0 < r <= k && m + r == k + 1
    ensures TopOnes(Or(x, ShiftRight(x, r)), k, 2 * r)
  {
    LeadingOnes(k, r, m);
    var h, b := Pow2(r) - 1, ShiftRight(x, r);
    var l := x - (Pow2(k + 1) - Pow2(m));
    ShiftedCopy(x, k, r, m);
    OrSplit(h, l, b, m);
    OrAtLeast(l, b);
    assert 2 * r <= k ==> m - r == k + 1 - 2 * r;
    assert m == r ==> Pow2(0) == 1;
  }

  /** The word that follows the smeared one is the least power of two above `y`. */
  lemma LeastPower(y: nat, k: nat)
    requires Pow2(k) <= y < Pow2(k + 1)
    ensures forall i: nat :: i < k + 1 ==> Pow2(i) < y + 1
  {
    forall i: nat | i < k + 1 ensures Pow2(i) < y + 1 {
      if i < k { Pow2Monotone(i, k); }
    }
  }

  /** `ceilToPow2` returned `x` for `n`: the least power of two that is at least `n`. */
  ghost predicate IsLeastPower(n: nat, x: nat, j: nat) {
    n <= x && x == Pow2(j) && forall i: nat :: i < j ==> Pow2(i) < n
  }

  /** The smearing shifts of `ceilToPow2`, for words of at most 64 bits. */
  method SmearWord(y: nat, ghost k: nat) returns (x: nat)
    requires k < 64
    requires y != 0 ==> Pow2(k) <= y < Pow2(k + 1)
    ensures x == if y == 0 then 0 else Pow2(k + 1) - 1
  {
    if y == 0 {
      OrZero(0);
      return 0;
    }
    x := y;
    SmearStep(x, k, 1);
    x := Or(x, ShiftRight(x, 1));
    SmearStep(x, k, 2);
    x := Or(x, ShiftRight(x, 2));
    SmearStep(x, k, 4);
    x := Or(x, ShiftRight(x, 4));
    var i := 1;
    while i < 8
      invariant i == 1 || i == 2 || i == 4 || i == 8
      invariant TopOnes(x, k, 8 * i)
      decreases 8 - i
    {
      SmearStep(x, k, 8 * i);
      x := Or(x, ShiftRight(x, 8 * i));
      i := 2 * i;
    }
  }

  /** What `ceilToPow2` returns on words of `w` bits: the least power of two that is at least `n`
      when 1 <= n <= 2^(w-1), and zero (the wrapped word) for every other `n`. */
  ghost predicate IsCeiling(n: nat, x: nat, w: nat)
    requires 0 < w
  {
    if 1 <= n <= Pow2(w - 1) then exists j: nat :: j < w && IsLeastPower(n, x, j) else x == 0
  }

  lemma CeilingOfSmeared(n: nat, y: nat, k: nat, f: nat, w: nat)
    requires n < Pow2(w) && 0 < w && y == (if n == 0 then Pow2(w) - 1 else n - 1)
    requires y == 0 ==> f == 0
    requires y != 0 ==> k < w && Pow2(k) <= y < Pow2(k + 1) && f == Pow2(k + 1) - 1
    ensures IsCeiling(n, (f + 1) % Pow2(w), w)
  {
    if y == 0 {
      WrapPower(0, w);
      assert IsLeastPower(n, Pow2(0), 0);
    } else {
      WrapPower(k + 1, w);
      BelowHalf(y, k, w);
      LeastPower(y, k);
      assert IsLeastPower(y + 1, Pow2(k + 1), k + 1);
    }
  }

  /** `ceilToPow2` on 64-bit words. */
  method CeilToPow2(n: nat) returns (x: nat)
    requires n < Pow2(WORD_BITS)
    ensures IsCeiling(n, x, WORD_BITS)
  {
    var y := if n == 0 then Pow2(WORD_BITS) - 1 else n - 1;
    ghost var k := 0;
    if y != 0 {
      k := HighestBit(y);
      BitsOfWord(y, k, WORD_BITS);
    }
    var f := SmearWord(y, k);
    x := (f + 1) % Pow2(WORD_BITS);
    CeilingOfSmeared(n, y, k, f, WORD_BITS);
  }

  /** A power of two stored in a word of `w` bits. */
  lemma WrapPower(j: nat, w: nat)
    requires j <= w
    ensures Pow2(j) % Pow2(w) == if j == w then 0 else Pow2(j)
  {
    if j < w {
      Pow2Monotone(j, w);
      ModuloUnique(Pow2(j), Pow2(w), 0, Pow2(j));
    } else {
      ModuloUnique(Pow2(j), Pow2(w), 1, 0);
    }
  }

  lemma BelowHalf(y: nat, k: nat, w: nat)
    requires Pow2(k) <= y < Pow2(k + 1) && k < w
    ensures k + 1 < w <==> y < Pow2(w - 1)
  {
    if k + 1 < w - 1 { Pow2Monotone(k + 1, w - 1); }
  }

  lemma BitsOfWord(y: nat, k: nat, w: nat)
    requires y < Pow2(w) && Pow2(k) <= y
    ensures k < w
  {
    if w < k { Pow2Monotone(w, k); }
  }

  // ---------------------------------------------------------------------------------------------
  // The slot mask
  // ---------------------------------------------------------------------------------------------

  lemma {:induction false} MaskIsModulo(a: nat, m: nat)
    ensures And(a, Pow2(m) - 1) == a % Pow2(m)
    decreases m
  {
    if m == 0 {
      AndZero(a);
    } else {
      MaskIsModulo(a / 2, m - 1);
      ModuloDouble(a, Pow2(m - 1));
      assert (Pow2(m) - 1) / 2 == Pow2(m - 1) - 1;
    }
  }

  lemma {:induction false} AndZero(a: nat)
    ensures And(a, 0) == 0
  {
    if a > 0 { AndZero(a / 2); }
  }

  /** `(i + 1) & sizeMask` steps to the next slot of a block of 2^m slots. */
  lemma MaskIsWrap(i: nat, m: nat)
    requires i < Pow2(m)
    ensures And(i + 1, Pow2(m) - 1) == NextSlot(i, Pow2(m))
  {
    MaskIsModulo(i + 1, m);
    if i + 1 == Pow2(m) {
      ModuloUnique(i + 1, Pow2(m), 1, 0);
    } else {
      ModuloUnique(i + 1, Pow2(m), 0, i + 1);
    }
  }
}
