/** Machine words as natural numbers: powers of two, bits, and bitwise operators. */
module Words {
  const TWO_TO_32: nat := 0x1_0000_0000
  const TWO_TO_64: nat := 0x1_0000_0000_0000_0000

  type Word = x: nat | x < TWO_TO_64
  type Byte = x: nat | x < 256

  function Pow2(k: nat): (p: nat)
    ensures 0 < p
  {
    if k == 0 then 1 else 2 * Pow2(k - 1)
  }

  predicate IsPow2(n: int) {
    0 < n && (n == 1 || (n % 2 == 0 && IsPow2(n / 2)))
  }

  function Bit(a: nat, i: nat): nat {
    if i == 0 then a % 2 else Bit(a / 2, i - 1)
  }

  function Xor(a: nat, b: nat): nat {
    if a == 0 && b == 0 then 0 else 2 * Xor(a / 2, b / 2) + (a + b) % 2
  }

  function And(a: nat, b: nat): nat {
    if a == 0 || b == 0 then 0 else 2 * And(a / 2, b / 2) + (a % 2) * (b % 2)
  }

  function Or(a: nat, b: nat): nat {
    if a == 0 && b == 0 then 0 else 2 * Or(a / 2, b / 2) + (if a % 2 == 1 || b % 2 == 1 then 1 else 0)
  }

  /** A logical shift to the right. */
  function Shr(a: nat, s: nat): nat {
    if s == 0 then a else Shr(a / 2, s - 1)
  }

  // ---------- powers of two ----------

  lemma {:induction false} Pow2Add(i: nat, j: nat)
    ensures Pow2(i + j) == Pow2(i) * Pow2(j)
  {
    if i != 0 {
      Pow2Add(i - 1, j);
    }
  }

  lemma {:induction false} Pow2Is(k: nat)
    ensures IsPow2(Pow2(k))
  {
    if k != 0 {
      Pow2Is(k - 1);
    }
  }

  lemma {:induction false} Log2(n: int) returns (k: nat)
    requires IsPow2(n)
    ensures n == Pow2(k)
  {
    if n == 1 {
      k := 0;
    } else {
      k := Log2(n / 2);
      k := k + 1;
    }
  }

  lemma {:induction false} Pow2Monotone(i: nat, j: nat)
    requires i < j
    ensures 2 * Pow2(i) <= Pow2(j)
  {
    if i < j - 1 {
      Pow2Monotone(i, j - 1);
    }
  }

  /** Between a power of two and its double there is no other. */
  lemma Pow2Gap(p: int, q: int)
    requires IsPow2(p) && IsPow2(q) && p < q
    ensures 2 * p <= q
  {
    var i := Log2(p);
    var j := Log2(q);
    if j < i {
      Pow2Monotone(j, i);
    } else if i < j {
      Pow2Monotone(i, j);
    }
  }

  lemma Pow2Values()
    ensures Pow2(8) == 256 && Pow2(16) == 65536 && Pow2(32) == TWO_TO_32 && Pow2(64) == TWO_TO_64
    ensures Pow2(62) == 0x4000_0000_0000_0000 && Pow2(63) == 0x8000_0000_0000_0000
  {
    assert Pow2(4) == 16;
    Pow2Add(4, 4);
    Pow2Add(8, 8);
    Pow2Add(16, 16);
    Pow2Add(32, 32);
    assert Pow2(64) == 2 * Pow2(63) && Pow2(63) == 2 * Pow2(62);
  }

  // ---------- exclusive or ----------

  lemma {:induction false} XorBound(a: nat, b: nat, k: nat)
    requires a < Pow2(k) && b < Pow2(k)
    ensures Xor(a, b) < Pow2(k)
  {
    if k != 0 {
      XorBound(a / 2, b / 2, k - 1);
    }
  }

  lemma {:induction false} XorZero(a: nat)
    ensures Xor(a, 0) == a
  {
    if a != 0 {
      XorZero(a / 2);
    }
  }

  lemma {:induction false} XorCommutes(a: nat, b: nat)
    ensures Xor(a, b) == Xor(b, a)
  {
    if a != 0 || b != 0 {
      XorCommutes(a / 2, b / 2);
    }
  }

  lemma XorHalves(a: nat, b: nat)
    ensures Xor(a, b) / 2 == Xor(a / 2, b / 2) && Xor(a, b) % 2 == (a + b) % 2
  {
  }

  lemma {:induction false} XorAssociates(a: nat, b: nat, c: nat)
    ensures Xor(Xor(a, b), c) == Xor(a, Xor(b, c))
  {
    if a != 0 || b != 0 || c != 0 {
      XorAssociates(a / 2, b / 2, c / 2);
      XorHalves(a, b);
      XorHalves(b, c);
      XorHalves(Xor(a, b), c);
      XorHalves(a, Xor(b, c));
      hide Xor;
      Parity(a, b, c, Xor(a, b), Xor(b, c));
      var x, y := Xor(Xor(a, b), c), Xor(a, Xor(b, c));
      SameHalves(x, y);
    }
  }

  lemma SameHalves(x: nat, y: nat)
    requires x / 2 == y / 2 && x % 2 == y % 2
    ensures x == y
  {
    assert x == 2 * (x / 2) + x % 2 && y == 2 * (y / 2) + y % 2;
  }

  lemma Parity(a: nat, b: nat, c: nat, ab: nat, bc: nat)
    requires ab % 2 == (a + b) % 2 && bc % 2 == (b + c) % 2
    ensures (ab + c) % 2 == (a + bc) % 2
  {
  }

  lemma {:induction false} XorSelf(a: nat)
    ensures Xor(a, a) == 0
  {
    if a != 0 {
      XorSelf(a / 2);
    }
  }

  lemma XorTwice(a: nat, b: nat)
    ensures Xor(Xor(a, b), b) == a
  {
    XorAssociates(a, b, b);
    XorSelf(b);
    XorZero(a);
  }

  /** Equal exclusive ors: what the two sides differ in is the same. */
  lemma XorEqual(a: nat, x: nat, b: nat, y: nat)
    ensures Xor(a, x) == Xor(b, y) <==> Xor(x, y) == Xor(a, b)
  {
    if Xor(a, x) == Xor(b, y) {
      // x == a ^ (b ^ y)
      XorTwice(x, a); XorCommutes(x, a);
      XorCommutes(Xor(b, y), a);
      assert x == Xor(a, Xor(b, y));
      XorAssociates(a, b, y);
      XorTwice(Xor(a, b), y);
    }
    if Xor(x, y) == Xor(a, b) {
      XorTwice(x, y);
      assert x == Xor(Xor(a, b), y);
      XorAssociates(a, b, y);
      XorCommutes(a, Xor(b, y));
      XorTwice(Xor(b, y), a);
      XorCommutes(x, a);
    }
  }

  /** Complementing one side complements the exclusive or. */
  lemma {:induction false} XorComplement(a: nat, b: nat, n: nat)
    requires a < Pow2(n) && b < Pow2(n)
    ensures Xor(a, Pow2(n) - 1 - b) == Pow2(n) - 1 - Xor(a, b)
  {
    if n != 0 {
      Pow2Next(n);
      hide Xor, Pow2;
      var p := Pow2(n - 1);
      XorComplement(a / 2, b / 2, n - 1);
      var c := 2 * p - 1 - b;
      ComplementHalf(b, p);
      XorStep(a, c);
      XorStep(a, b);
      Odds(a, b, c);
    }
  }

  lemma Pow2Next(n: nat)
    requires 0 < n
    ensures Pow2(n) == 2 * Pow2(n - 1)
  {
  }

  lemma ComplementHalf(b: nat, p: nat)
    requires b < 2 * p
    ensures (2 * p - 1 - b) / 2 == p - 1 - b / 2 && (b + (2 * p - 1 - b)) % 2 == 1
  {
  }

  lemma XorStep(a: nat, b: nat)
    ensures Xor(a, b) == 2 * Xor(a / 2, b / 2) + (a + b) % 2
  {
  }

  lemma Odds(a: nat, b: nat, c: nat)
    requires (b + c) % 2 == 1
    ensures (a + c) % 2 == 1 - (a + b) % 2
  {
  }

  /** Words agree above their lowest k bits exactly if their exclusive or is below 2^k. */
  lemma {:induction false} XorLowIff(a: nat, b: nat, k: nat)
    ensures Xor(a, b) < Pow2(k) <==> Shr(a, k) == Shr(b, k)
  {
    if k == 0 {
      XorSelf(a);
      XorTwice(a, b);
      XorCommutes(0, b);
      XorZero(b);
    } else {
      XorLowIff(a / 2, b / 2, k - 1);
      XorStep(a, b);
    }
  }

  lemma {:induction false} ShrBounds(a: nat, k: nat)
    ensures Shr(a, k) * Pow2(k) <= a < Shr(a, k) * Pow2(k) + Pow2(k)
  {
    if k != 0 {
      ShrBounds(a / 2, k - 1);
      DoubleBounds(a, Shr(a, k), Pow2(k - 1));
    }
  }

  lemma DoubleBounds(a: nat, q: nat, p: nat)
    requires q * p <= a / 2 < q * p + p
    ensures q * (2 * p) <= a < q * (2 * p) + 2 * p
  {
    assert q * (2 * p) == 2 * (q * p);
  }

  // ---------- bits ----------

  lemma {:induction false} OrBit(a: nat, b: nat, i: nat)
    ensures Bit(Or(a, b), i) == 1 <==> Bit(a, i) == 1 || Bit(b, i) == 1
  {
    OrStep(a, b);
    if i != 0 {
      OrBit(a / 2, b / 2, i - 1);
    }
  }

  lemma OrStep(a: nat, b: nat)
    ensures Or(a, b) / 2 == Or(a / 2, b / 2)
    ensures Or(a, b) % 2 == 1 <==> a % 2 == 1 || b % 2 == 1
  {
  }

  lemma {:induction false} ShiftBit(a: nat, s: nat, i: nat)
    ensures Bit(Shr(a, s), i) == Bit(a, i + s)
  {
    if s != 0 {
      ShiftBit(a / 2, s - 1, i);
    }
  }

  lemma {:induction false} ShrPow2(a: nat, s: nat)
    ensures Shr(a * Pow2(s), s) == a
  {
    if s != 0 {
      ShrPow2(a, s - 1);
      assert a * Pow2(s) == 2 * (a * Pow2(s - 1));
    }
  }

  /** Masking with 2^k - 1 keeps the low k bits. */
  lemma {:induction false} MaskIsMod(a: nat, k: nat)
    ensures And(a, Pow2(k) - 1) == a % Pow2(k)
  {
    if k == 0 {
      assert a % 1 == 0;
    } else if a != 0 {
      MaskIsMod(a / 2, k - 1);
      var p := Pow2(k - 1);
      assert (2 * p - 1) / 2 == p - 1 && (2 * p - 1) % 2 == 1;
      ModHalf(a, p);
    }
  }

  lemma ModHalf(a: nat, p: nat)
    requires 0 < p
    ensures a % (2 * p) == 2 * (a / 2 % p) + a % 2
  {
    var h := a / 2;
    var q, r := h / p, h % p;
    assert h == q * p + r;
    assert a == 2 * h + a % 2;
    assert a == q * (2 * p) + (2 * r + a % 2);
    ModUnique(a, 2 * p, q, 2 * r + a % 2);
  }

  lemma ModUnique(a: nat, d: nat, q: nat, r: nat)
    requires 0 < d && a == q * d + r && r < d
    ensures a % d == r && a / d == q
  {
    var q', r' := a / d, a % d;
    assert a == q' * d + r';
    assert (q - q') * d == r' - r;
    MultipleBound(q - q', d);
  }

  lemma MultipleBound(m: int, d: nat)
    ensures 1 <= m ==> d <= m * d
    ensures m <= -1 ==> m * d <= 0 - d
  {
  }
}
