/** Integer bit operations as Python's `int` defines them on non-negative numbers: shifts, masks, and the population
    count, related to division by powers of two and to single bits. */
module Bits {

  function Pow2(k: nat): (p: nat)
    ensures p > 0
  {
    if k == 0 then 1 else 2 * Pow2(k - 1)
  }

  /** `w >> k` */
  function Shr(w: nat, k: nat): nat {
    if k == 0 then w else Shr(w / 2, k - 1)
  }

  /** `w << k` */
  function Shl(w: nat, k: nat): (r: nat)
    ensures r >= w
  {
    if k == 0 then w else 2 * Shl(w, k - 1)
  }

  /** `a & b` */
  function And(a: nat, b: nat): nat {
    if a == 0 || b == 0 then 0
    else (if a % 2 == 1 && b % 2 == 1 then 1 else 0) + 2 * And(a / 2, b / 2)
  }

  /** `w.bit_count()` */
  function BitCount(w: nat): nat {
    if w == 0 then 0 else w % 2 + BitCount(w / 2)
  }

  /** Bit `k` of `w`, independently of the shift operators. */
  predicate BitAt(w: nat, k: nat) {
    if k == 0 then w % 2 == 1 else BitAt(w / 2, k - 1)
  }

  /** How many of the `k` lowest bits of `w` are set. */
  function OnesBelow(w: nat, k: nat): nat {
    if k == 0 then 0 else w % 2 + OnesBelow(w / 2, k - 1)
  }

  /** The `k` lowest bits of `w`, as a number. */
  function LowBits(w: nat, k: nat): nat {
    if k == 0 then 0 else w % 2 + 2 * LowBits(w / 2, k - 1)
  }

  // ---- powers of two ----

  lemma {:induction false} Pow2Add(a: nat, b: nat)
    ensures Pow2(a + b) == Pow2(a) * Pow2(b)
  {
    if a != 0 {
      Pow2Add(a - 1, b);
    }
  }

  lemma {:induction false} Pow2Monotone(a: nat, b: nat)
    requires a <= b
    ensures Pow2(a) <= Pow2(b)
  {
    if a < b {
      Pow2Monotone(a, b - 1);
    }
  }

  lemma {:induction false} Pow2StrictlyMonotone(a: nat, b: nat)
    requires a < b
    ensures Pow2(a) < Pow2(b)
  {
    Pow2Monotone(a, b - 1);
  }

  // ---- quotients ----

  lemma {:induction false} QuotientIs(a: nat, d: nat, q: nat, r: nat)
    requires 0 < d && r < d && a == q * d + r
    ensures a / d == q && a % d == r
  {
    var q', r' := a / d, a % d;
    assert (q' - q) * d == r - r';
    if q' < q {
      MulAtLeast(q - q', d);
    } else if q < q' {
      MulAtLeast(q' - q, d);
    }
  }

  lemma {:induction false} MulAtLeast(k: nat, d: nat)
    requires k >= 1
    ensures k * d >= d
  {
    assert k * d == (k - 1) * d + d;
  }

  lemma {:induction false} HalveThenDivide(a: nat, d: nat)
    requires d > 0
    ensures a / (2 * d) == (a / 2) / d
    ensures a % (2 * d) == a % 2 + 2 * ((a / 2) % d)
  {
    var q, r := (a / 2) / d, (a / 2) % d;
    assert a / 2 == q * d + r;
    assert a == q * (2 * d) + (2 * r + a % 2);
    QuotientIs(a, 2 * d, q, 2 * r + a % 2);
  }

  // ---- shifts, masks and counts ----

  lemma {:induction false} ShrExposesBit(w: nat, k: nat)
    ensures (Shr(w, k) % 2 == 1) <==> BitAt(w, k)
  {
    if k != 0 {
      ShrExposesBit(w / 2, k - 1);
    }
  }

  lemma {:induction false} ShlIsProduct(w: nat, k: nat)
    ensures Shl(w, k) == w * Pow2(k)
  {
    if k != 0 {
      ShlIsProduct(w, k - 1);
      DoubleProduct(w, Pow2(k - 1));
    }
  }

  lemma {:induction false} AndOdd(w: nat, m: nat)
    ensures And(w, 2 * m + 1) == w % 2 + 2 * And(w / 2, m)
  {
  }

  lemma {:induction false} AndLowMask(w: nat, k: nat)
    ensures And(w, Shl(1, k) - 1) == LowBits(w, k)
  {
    if k != 0 {
      AndLowMask(w / 2, k - 1);
      AndOdd(w, Shl(1, k - 1) - 1);
    }
  }

  lemma {:induction false} LowBitsOfSmall(w: nat, k: nat)
    requires w < Pow2(k)
    ensures LowBits(w, k) == w
  {
    if k != 0 {
      LowBitsOfSmall(w / 2, k - 1);
    }
  }

  /** Masking with `len` ones followed by `k` zeros rounds down to a multiple of `2^k`. */
  lemma {:induction false} AndHighMask(w: nat, len: nat, k: nat)
    requires w < Pow2(len + k)
    ensures And(w, Shl(Shl(1, len) - 1, k)) == w / Pow2(k) * Pow2(k)
  {
    if k == 0 {
      AndLowMask(w, len);
      LowBitsOfSmall(w, len);
    } else {
      var m, p := Shl(Shl(1, len) - 1, k - 1), Pow2(k - 1);
      HalfFits(w, len, k);
      AndHighMask(w / 2, len, k - 1);
      AndDoubled(w, m);
      FloorDoubled(w, p);
      assert Shl(Shl(1, len) - 1, k) == 2 * m && Pow2(k) == 2 * p;
    }
  }

  lemma {:induction false} HalfFits(w: nat, len: nat, k: nat)
    requires k > 0 && w < Pow2(len + k)
    ensures w / 2 < Pow2(len + (k - 1))
  {
    assert Pow2(len + k) == 2 * Pow2(len + k - 1);
  }

  lemma {:induction false} FloorDoubled(w: nat, p: nat)
    requires p > 0
    ensures w / (2 * p) * (2 * p) == 2 * ((w / 2) / p * p)
  {
    HalveThenDivide(w, p);
    DoubleProduct((w / 2) / p, p);
  }

  lemma {:induction false} AndDoubled(w: nat, m: nat)
    ensures And(w, 2 * m) == 2 * And(w / 2, m)
  {
  }

  lemma {:induction false} DoubleProduct(a: nat, b: nat)
    ensures a * (2 * b) == 2 * (a * b)
  {
  }

  lemma {:induction false} CountOfMasked(w: nat, k: nat)
    ensures BitCount(And(w, Shl(1, k) - 1)) == OnesBelow(w, k)
  {
    AndLowMask(w, k);
    CountOfLowBits(w, k);
  }

  lemma {:induction false} CountOfLowBits(w: nat, k: nat)
    ensures BitCount(LowBits(w, k)) == OnesBelow(w, k)
  {
    if k != 0 {
      CountOfLowBits(w / 2, k - 1);
      var rest := LowBits(w / 2, k - 1);
      assert LowBits(w, k) / 2 == rest && LowBits(w, k) % 2 == w % 2;
    }
  }

  lemma {:induction false} OnesBelowNext(w: nat, k: nat)
    ensures OnesBelow(w, k + 1) == OnesBelow(w, k) + (if BitAt(w, k) then 1 else 0)
  {
    if k != 0 {
      OnesBelowNext(w / 2, k - 1);
    }
  }

  // ---- powers as numbers ----

  lemma {:induction false} PowSum(a: nat, b: nat, x: nat, y: nat)
    requires Pow2(a) == x && Pow2(b) == y
    ensures Pow2(a + b) == x * y
  {
    Pow2Add(a, b);
  }

  lemma {:induction false} SmallPowers()
    ensures Pow2(0) == 1 && Pow2(1) == 2 && Pow2(2) == 4 && Pow2(4) == 16 && Pow2(8) == 256
  {
    assert Pow2(4) == 16;
    PowSum(4, 4, 16, 16);
  }

  lemma {:induction false} Pow2Of16()
    ensures Pow2(16) == 0x1_0000
  {
    SmallPowers();
    PowSum(8, 8, 0x100, 0x100);
  }

  lemma {:induction false} Pow2Of20()
    ensures Pow2(20) == 0x10_0000
  {
    SmallPowers();
    Pow2Of16();
    PowSum(16, 4, 0x1_0000, 0x10);
  }

  lemma {:induction false} Pow2Of24()
    ensures Pow2(24) == 0x100_0000
  {
    SmallPowers();
    Pow2Of16();
    PowSum(16, 8, 0x1_0000, 0x100);
  }

  lemma {:induction false} Pow2Of28()
    ensures Pow2(28) == 0x1000_0000
  {
    SmallPowers();
    Pow2Of24();
    PowSum(24, 4, 0x100_0000, 0x10);
  }

  lemma {:induction false} Pow2Of32()
    ensures Pow2(32) == 0x1_0000_0000
  {
    Pow2Of16();
    PowSum(16, 16, 0x1_0000, 0x1_0000);
  }

  lemma {:induction false} Pow2Of64()
    ensures Pow2(64) == 0x1_0000_0000_0000_0000
  {
    Pow2Of32();
    PowSum(32, 32, 0x1_0000_0000, 0x1_0000_0000);
  }

  lemma {:induction false} Pow2Of96()
    ensures Pow2(96) == 0x1_0000_0000_0000_0000_0000_0000
  {
    Pow2Of64();
    Pow2Of32();
    PowSum(64, 32, 0x1_0000_0000_0000_0000, 0x1_0000_0000);
  }

  lemma {:induction false} Pow2Of112()
    ensures Pow2(112) == 0x1_0000_0000_0000_0000_0000_0000_0000
  {
    Pow2Of96();
    Pow2Of16();
    PowSum(96, 16, 0x1_0000_0000_0000_0000_0000_0000, 0x1_0000);
  }

  lemma {:induction false} Pow2Of116()
    ensures Pow2(116) == 0x10_0000_0000_0000_0000_0000_0000_0000
  {
    SmallPowers();
    Pow2Of112();
    PowSum(112, 4, 0x1_0000_0000_0000_0000_0000_0000_0000, 0x10);
  }

  lemma {:induction false} Pow2Of118()
    ensures Pow2(118) == 0x40_0000_0000_0000_0000_0000_0000_0000
  {
    SmallPowers();
    Pow2Of116();
    PowSum(116, 2, 0x10_0000_0000_0000_0000_0000_0000_0000, 0x4);
  }

  lemma {:induction false} Pow2Of120()
    ensures Pow2(120) == 0x100_0000_0000_0000_0000_0000_0000_0000
  {
    SmallPowers();
    Pow2Of116();
    PowSum(116, 4, 0x10_0000_0000_0000_0000_0000_0000_0000, 0x10);
  }

  lemma {:induction false} Pow2Of121()
    ensures Pow2(121) == 0x200_0000_0000_0000_0000_0000_0000_0000
  {
    SmallPowers();
    Pow2Of120();
    PowSum(120, 1, 0x100_0000_0000_0000_0000_0000_0000_0000, 0x2);
  }

  lemma {:induction false} Pow2Of128()
    ensures Pow2(128) == 0x1_0000_0000_0000_0000_0000_0000_0000_0000
  {
    Pow2Of64();
    PowSum(64, 64, 0x1_0000_0000_0000_0000, 0x1_0000_0000_0000_0000);
  }
}
