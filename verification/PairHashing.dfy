/** Which pairs of argument types the two-argument hash tells apart, for strings, booleans and
    integers. */
module PairHashing {
  import opened Words
  import opened Hashing
  import opened Sets

  const ONES: Word := 0xFFFF_FFFF_FFFF_FFFF

  /** The arguments of one type. */
  predicate OfType(sample: Key, k: Key) {
    ValidKey(k) && SameType(sample, k)
  }

  predicate Wide(k: Key) {
    IntegerKey(k) && k.width == 64
  }

  predicate Supported(k: Key) {
    ValidKey(k) && !k.Float?
  }

  /** The pairs of types over which two different pairs of arguments can have the same hash. */
  predicate PairCollides(s1: Key, s2: Key) {
    || s1.Str? || s2.Str? || s2.Boolean?
    || Wide(s1) || Wide(s2)
    || (s1.Signed? && s2.Signed?)
    || (IntegerKey(s1) && IntegerKey(s2) && s1.width == s2.width == 32)
  }

  // ---------- integers as words ----------

  /** The words that integers of one type convert to. */
  predicate Fits(sample: Key, w: Word)
    requires IntegerKey(sample)
  {
    if sample.Unsigned? then w < Pow2(sample.width)
    else w < Pow2(sample.width - 1) || TWO_TO_64 - Pow2(sample.width - 1) <= w
  }

  /** Every word that fits is converted from some integer of the type. */
  lemma KeyOf(sample: Key, w: Word) returns (k: Key)
    requires IntegerKey(sample) && Fits(sample, w)
    ensures OfType(sample, k) && IntegerKey(k) && ToWord(k) == w
  {
    hide Pow2;
    WidthBound(sample.width);
    if sample.Unsigned? {
      k := Unsigned(sample.width, w);
    } else if w < Pow2(sample.width - 1) {
      k := Signed(sample.width, w);
    } else {
      k := Signed(sample.width, w - TWO_TO_64);
    }
  }

  lemma ToWordFits(k: Key)
    requires IntegerKey(k)
    ensures Fits(k, ToWord(k))
  {
    hide Pow2;
    WidthBound(k.width);
    if k.Signed? {
      assert k.value % TWO_TO_64 == if k.value < 0 then k.value + TWO_TO_64 else k.value;
    }
  }

  /** The word that a hash of one integer multiplies. */
  function Seeded(w: Word): Word {
    XorWord(OFFSET, w);
    Xor(OFFSET, w)
  }

  function Product(x: Word): Word {
    x * PRIME % TWO_TO_64
  }

  lemma SeededTwice(w: Word)
    ensures Seeded(Seeded(w)) == w
  {
    XorCommutes(OFFSET, w);
    XorTwice(w, OFFSET);
    XorCommutes(OFFSET, Seeded(w));
  }

  /** Words that agree above a power of two. */
  predicate Near(a: Word, b: Word, p: nat)
    requires 0 < p
  {
    a / p == b / p
  }

  lemma ShrIsQuotient(a: nat, k: nat)
    ensures Shr(a, k) == a / Pow2(k)
  {
    ShrBounds(a, k);
    hide Shr;
    QuotientIs(a, Shr(a, k), Pow2(k));
  }

  lemma QuotientIs(a: nat, q: nat, p: nat)
    requires 0 < p && q * p <= a < q * p + p
    ensures a / p == q
  {
    ModUnique(a, p, q, a - q * p);
  }

  lemma NearIff(a: Word, b: Word, k: nat)
    ensures Near(a, b, Pow2(k)) <==> Xor(a, b) < Pow2(k)
  {
    XorLowIff(a, b, k);
    ShrIsQuotient(a, k);
    ShrIsQuotient(b, k);
  }

  lemma OppositeXor(a: Word, b: Word)
    ensures Xor(a, ONES - b) == ONES - Xor(a, b)
  {
    Pow2Values();
    XorComplement(a, b, 64);
  }

  /** One word is near the complement of the other exactly if they differ in all upper bits. */
  lemma OppositeIff(a: Word, b: Word, k: nat)
    ensures Near(a, ONES - b, Pow2(k)) <==> TWO_TO_64 - Pow2(k) <= Xor(a, b)
  {
    NearIff(a, ONES - b, k);
    OppositeXor(a, b);
  }

  // ---------- pairs that collide ----------

  /** Two first arguments collide if the words that separate their hashes fit the second type. */
  lemma WordsCollide(s1: Key, s2: Key, x1: Word, x2: Word, v: Word, v': Word)
    returns (a1: Key, a2: Key, b1: Key, b2: Key)
    requires IntegerKey(s1) && IntegerKey(s2) && x1 != x2
    requires Fits(s1, Seeded(x1)) && Fits(s1, Seeded(x2)) && Fits(s2, v) && Fits(s2, v')
    requires Xor(v, v') == Xor(Product(x1), Product(x2))
    ensures OfType(s1, a1) && OfType(s1, a2) && OfType(s2, b1) && OfType(s2, b2)
    ensures a1 != a2 && Hash2(a1, b1) == Hash2(a2, b2)
  {
    hide Fits, Xor;
    a1 := KeyOf(s1, Seeded(x1));
    a2 := KeyOf(s1, Seeded(x2));
    b1 := KeyOf(s2, v);
    b2 := KeyOf(s2, v');
    SeededTwice(x1);
    SeededTwice(x2);
    Hash2Collides(a1, a2, b1, b2);
  }

  /** A 64-bit second argument can make up for any difference between the first ones. */
  lemma WideSecond(a1: Key, a2: Key, b1: Key) returns (b2: Key)
    requires ValidKey(a1) && ValidKey(a2) && Wide(b1)
    ensures OfType(b1, b2) && Hash2(a1, b1) == Hash2(a2, b2)
  {
    hide Xor, Hash;
    Pow2Values();
    var d := Xor(Hash1(a1), Hash1(a2));
    XorWord(Hash1(a1), Hash1(a2));
    XorWord(d, ToWord(b1));
    var w := Xor(d, ToWord(b1));
    WideFits(b1, w);
    b2 := KeyOf(b1, w);
    XorCommutes(ToWord(b1), w);
    XorTwice(d, ToWord(b1));
    MixEqual(Hash1(a1), ToWord(b1), Hash1(a2), w);
    HashInteger(Hash1(a1), b1);
    HashInteger(Hash1(a2), b2);
  }

  lemma HashInteger(h: Word, k: Key)
    requires IntegerKey(k)
    ensures Hash(h, k) == Mix(h, ToWord(k))
  {
  }

  lemma WideFits(sample: Key, w: Word)
    requires Wide(sample)
    ensures Fits(sample, w)
  {
    Pow2Values();
  }

  /** Every hash is reached from some accumulator, except through a boolean. */
  lemma HashReached(b: Key, r: Word) returns (h: Word)
    requires ValidKey(b) && !b.Boolean?
    ensures Hash(h, b) == r
  {
    if b.Str? {
      h := Unfold(r, b.bytes);
      FoldBijective(r, b.bytes);
    } else if b.Float? {
      h := Unmix(r, b.bits);
      MixUnmix(r, b.bits);
    } else {
      h := Unmix(r, ToWord(b));
      MixUnmix(r, ToWord(b));
    }
  }

  /** A 64-bit first argument can make up for any difference between the second ones. */
  lemma WideFirst(a1: Key, b1: Key, b2: Key) returns (a2: Key)
    requires Wide(a1) && ValidKey(b1) && ValidKey(b2) && !b2.Boolean?
    ensures OfType(a1, a2) && Hash2(a1, b1) == Hash2(a2, b2)
  {
    hide Xor, Hash;
    var h := HashReached(b2, Hash2(a1, b1));
    var x := h * INVERSE % TWO_TO_64;
    MulInverse(h, INVERSE, PRIME);
    WideFits(a1, Seeded(x));
    a2 := KeyOf(a1, Seeded(x));
    SeededTwice(x);
    HashInteger(OFFSET, a2);
  }

  // ---------- strings ----------

  function Image(f: nat -> nat, n: nat): set<nat> {
    if n == 0 then {} else Image(f, n - 1) + {f(n - 1)}
  }

  ghost predicate InjectiveBelow(f: nat -> nat, n: nat) {
    forall i: nat, j: nat | i < j < n :: f(i) != f(j)
  }

  lemma {:induction false} NotInImage(f: nat -> nat, n: nat, x: nat)
    requires forall i: nat | i < n :: f(i) != x
    ensures x !in Image(f, n)
  {
    if n != 0 {
      NotInImage(f, n - 1, x);
    }
  }

  lemma {:induction false} ImageSize(f: nat -> nat, n: nat)
    requires InjectiveBelow(f, n)
    ensures |Image(f, n)| == n
  {
    if n != 0 {
      ImageSize(f, n - 1);
      NotInImage(f, n - 1, f(n - 1));
    }
  }

  /** The numbers below n. */
  function Below(n: nat): (s: set<nat>)
    ensures |s| == n && forall i: nat :: i in s <==> i < n
  {
    if n == 0 then {} else Below(n - 1) + {n - 1}
  }

  lemma {:induction false} ImageBelow(f: nat -> nat, m: nat, n: nat)
    requires forall i: nat | i < m :: f(i) < n
    ensures Image(f, m) <= Below(n)
  {
    if m != 0 {
      ImageBelow(f, m - 1, n);
    }
  }

  lemma NotInjective(f: nat -> nat, n: nat)
    requires forall i: nat | i <= n :: f(i) < n
    ensures !InjectiveBelow(f, n + 1)
  {
    ImageBelow(f, n + 1, n);
    SubsetSize(Image(f, n + 1), Below(n));
    if InjectiveBelow(f, n + 1) {
      ImageSize(f, n + 1);
      assert false;
    }
  }

  /** Of more values than there is room for, two are the same. */
  lemma Pigeonhole(f: nat -> nat, n: nat) returns (i: nat, j: nat)
    requires forall i: nat | i <= n :: f(i) < n
    ensures i < j <= n && f(i) == f(j)
  {
    NotInjective(f, n);
    i, j :| i < j < n + 1 && f(i) == f(j);
  }

  function Zeros(n: nat): (s: seq<Byte>)
    ensures |s| == n
  {
    seq(n, _ => 0)
  }

  /** For every seed some two strings have the same hash. */
  lemma StringsCollide(seed: Word) returns (s: seq<Byte>, t: seq<Byte>)
    ensures s != t && Fold(seed, s) == Fold(seed, t)
  {
    var i, j := Pigeonhole((n: nat) => Fold(seed, Zeros(n)), TWO_TO_64);
    s, t := Zeros(i), Zeros(j);
  }

  // ---------- signed integers ----------

  const BUT_ONE: Word := 0xFFFF_FFFF_FFFF_FFFE

  /** Flipping all bits but the lowest negates an odd word. */
  lemma FlipOdd(x: Word)
    requires x % 2 == 1
    ensures Xor(x, BUT_ONE) == TWO_TO_64 - x
  {
    OppositeXor(x, 1);
    XorStep(x, 1);
    XorZero(x / 2);
  }

  lemma FlipTwice(x: Word)
    ensures Xor(x, BUT_ONE) < TWO_TO_64
    ensures Xor(x, Xor(x, BUT_ONE)) == BUT_ONE
  {
    XorWord(x, BUT_ONE);
    XorCommutes(x, BUT_ONE);
    XorCommutes(x, Xor(BUT_ONE, x));
    XorTwice(BUT_ONE, x);
  }

  lemma ProductOdd(x: Word)
    requires x % 2 == 1
    ensures Product(x) % 2 == 1 && Product(TWO_TO_64 - x) == TWO_TO_64 - Product(x)
  {
    var q := x * PRIME / TWO_TO_64;
    var y := Product(x);
    assert x * PRIME == q * TWO_TO_64 + y;
    OddTimes(x, PRIME);
    assert (TWO_TO_64 - x) * PRIME == (PRIME - q - 1) * TWO_TO_64 + (TWO_TO_64 - y);
    ModUnique((TWO_TO_64 - x) * PRIME, TWO_TO_64, PRIME - q - 1, TWO_TO_64 - y);
  }

  lemma OddTimes(a: nat, b: nat)
    requires a % 2 == 1 && b % 2 == 1
    ensures a * b % 2 == 1
  {
    var h, k := a / 2, b / 2;
    assert a * b == 2 * (2 * h * k + h + k) + 1;
  }

  /** Flipping all bits but the lowest keeps a word within a signed type. */
  lemma FlipFits(sample: Key, u: Word)
    requires IntegerKey(sample) && sample.Signed? && Fits(sample, u)
    ensures Xor(u, BUT_ONE) < TWO_TO_64 && Fits(sample, Xor(u, BUT_ONE))
  {
    hide Xor;
    var k := sample.width - 1;
    WidthBound(sample.width);
    Pow2Monotone(0, k);
    hide Pow2;
    XorWord(u, BUT_ONE);
    OppositeXor(u, 1);
    if u < Pow2(k) {
      XorBound(u, 1, k);
    } else {
      XorCommutes(u, 1);
      OppositeXor(1, ONES - u);
      XorBound(1, ONES - u, k);
    }
  }

  /** Over two signed integer types every pair whose first integer is even collides with another one,
      (0, 0) with (-2, -2) for instance. */
  lemma SignedPartner(a1: Key, b1: Key) returns (a2: Key, b2: Key)
    requires IntegerKey(a1) && IntegerKey(b1) && a1.Signed? && b1.Signed? && ToWord(a1) % 2 == 0
    ensures OfType(a1, a2) && OfType(b1, b2) && a1 != a2 && Hash2(a1, b1) == Hash2(a2, b2)
  {
    hide Xor, Pow2, ValidKey, Hash2, Fits, Product, Seeded;
    var u, v := ToWord(a1), ToWord(b1);
    ToWordFits(a1);
    ToWordFits(b1);
    FlipFits(a1, u);
    FlipFits(b1, v);
    a2 := KeyOf(a1, Xor(u, BUT_ONE));
    b2 := KeyOf(b1, Xor(v, BUT_ONE));
    FlipTwice(v);
    FlipTwice(u);
    FlipHash(u);
    FlipTwice(Product(Seeded(u)));
    XorSelf(u);
    HashSeeded(a1);
    HashSeeded(a2);
    Hash2Collides(a1, a2, b1, b2);
  }

  lemma HashSeeded(k: Key)
    requires IntegerKey(k)
    ensures Hash1(k) == Product(Seeded(ToWord(k)))
  {
  }

  lemma FlipHash(u: Word)
    requires u % 2 == 0
    ensures Xor(u, BUT_ONE) < TWO_TO_64
    ensures Product(Seeded(Xor(u, BUT_ONE))) == Xor(Product(Seeded(u)), BUT_ONE)
  {
    XorWord(u, BUT_ONE);
    XorStep(OFFSET, u);
    XorAssociates(OFFSET, u, BUT_ONE);
    hide Xor;
    FlipOdd(Seeded(u));
    ProductOdd(Seeded(u));
    FlipOdd(Product(Seeded(u)));
  }

  // ---------- integers of 32 bits ----------

  /** The exclusive or of two words is one that 32-bit integers of the type convert to. */
  predicate Differ32(sample: Key, a: Word, b: Word) {
    if sample.Unsigned? then Near(a, b, 0x1_0000_0000)
    else Near(a, b, 0x8000_0000) || Near(a, ONES - b, 0x8000_0000)
  }

  lemma DifferFits(sample: Key, a: Word, b: Word)
    requires IntegerKey(sample) && sample.width == 32 && Differ32(sample, a, b)
    ensures Xor(a, b) < TWO_TO_64 && Fits(sample, 0) && Fits(sample, Xor(a, b))
  {
    Pow2Values();
    assert Pow2(32) == 2 * Pow2(31);
    XorWord(a, b);
    NearIff(a, b, 32);
    NearIff(a, b, 31);
    OppositeIff(a, b, 31);
  }

  lemma SeededCollide(s1: Key, s2: Key, x1: Word, x2: Word) returns (a1: Key, a2: Key, b1: Key, b2: Key)
    requires IntegerKey(s1) && IntegerKey(s2) && s1.width == s2.width == 32 && x1 != x2
    requires Differ32(s1, OFFSET, x1) && Differ32(s1, OFFSET, x2) && Differ32(s2, Product(x1), Product(x2))
    ensures OfType(s1, a1) && OfType(s1, a2) && OfType(s2, b1) && OfType(s2, b2)
    ensures a1 != a2 && Hash2(a1, b1) == Hash2(a2, b2)
  {
    hide Xor, Fits, Product, Differ32;
    var d := Xor(Product(x1), Product(x2));
    DifferFits(s1, OFFSET, x1);
    DifferFits(s1, OFFSET, x2);
    DifferFits(s2, Product(x1), Product(x2));
    XorZero(d);
    XorCommutes(0, d);
    a1, a2, b1, b2 := WordsCollide(s1, s2, x1, x2, 0, d);
  }

  lemma UnsignedWords(s1: Key, s2: Key)
    requires s1.Unsigned? && s2.Unsigned?
    ensures Differ32(s1, OFFSET, 14695981039663185919) && Differ32(s1, OFFSET, 14695981037129826304)
    ensures Differ32(s2, Product(14695981039663185919), Product(14695981037129826304))
  {
    var x1: Word, x2: Word := 14695981039663185919, 14695981037129826304;
    assert Near(OFFSET, x1, 0x1_0000_0000) && Near(OFFSET, x2, 0x1_0000_0000);
    var y1: Word, y2: Word := 10178301650469387853, 10178301647969583104;
    assert Product(x1) == y1 && Product(x2) == y2;
    assert Near(y1, y2, 0x1_0000_0000);
  }

  lemma SignedSecondWords(s1: Key, s2: Key)
    requires s1.Unsigned? && s2.Signed?
    ensures Differ32(s1, OFFSET, 14695981038285717200) && Differ32(s1, OFFSET, 14695981041424793599)
    ensures Differ32(s2, Product(14695981038285717200), Product(14695981041424793599))
  {
    var y1: Word, y2: Word := 8268441657242188656, 10178302416768728653;
    assert Product(14695981038285717200) == y1 && Product(14695981041424793599) == y2;
    assert Near(y1, ONES - y2, 0x8000_0000);
  }

  lemma SignedFirstWords(s1: Key, s2: Key)
    requires s1.Signed? && s2.Unsigned?
    ensures Differ32(s1, OFFSET, 14695981040819076814) && Differ32(s1, OFFSET, 3750763032284758016)
    ensures Differ32(s2, Product(14695981040819076814), Product(3750763032284758016))
  {
    var x1: Word, x2: Word := 14695981040819076814, 3750763032284758016;
    assert Near(OFFSET, x1, 0x8000_0000);
    assert Near(OFFSET, ONES - x2, 0x8000_0000);
    var y1: Word, y2: Word := 8268440560230365194, 8268440557429194752;
    assert Product(x1) == y1 && Product(x2) == y2;
    assert Near(y1, y2, 0x1_0000_0000);
  }

  /** Two 32-bit integers as first arguments, given by their seeded words, collide for some 32-bit
      integers as second ones; two signed types are left to `SignedPartner`. */
  lemma BothOf32(s1: Key, s2: Key) returns (a1: Key, a2: Key, b1: Key, b2: Key)
    requires IntegerKey(s1) && IntegerKey(s2) && s1.width == s2.width == 32 && (s1.Unsigned? || s2.Unsigned?)
    ensures OfType(s1, a1) && OfType(s1, a2) && OfType(s2, b1) && OfType(s2, b2)
    ensures a1 != a2 && Hash2(a1, b1) == Hash2(a2, b2)
  {
    hide Product, Differ32, Hash2, ValidKey;
    if s1.Signed? {
      SignedFirstWords(s1, s2);
      a1, a2, b1, b2 := SeededCollide(s1, s2, 14695981040819076814, 3750763032284758016);
    } else if s2.Signed? {
      SignedSecondWords(s1, s2);
      a1, a2, b1, b2 := SeededCollide(s1, s2, 14695981038285717200, 14695981041424793599);
    } else {
      UnsignedWords(s1, s2);
      a1, a2, b1, b2 := SeededCollide(s1, s2, 14695981039663185919, 14695981037129826304);
    }
  }

  /** Two arguments of one type, which only booleans do not have more of. */
  lemma TwoOfType(sample: Key) returns (a: Key, b: Key)
    requires Supported(sample)
    ensures OfType(sample, a) && OfType(sample, b) && a != b
  {
    Pow2Values();
    if sample.Str? {
      a, b := Str([]), Str([0]);
    } else if sample.Boolean? {
      a, b := Boolean(false), Boolean(true);
    } else {
      WidthBound(sample.width);
      Pow2Monotone(0, sample.width - 1);
      a := KeyOf(sample, 0);
      b := KeyOf(sample, 1);
    }
  }

  /** All these pairs of types do have collisions. */
  lemma PairsCollide(s1: Key, s2: Key) returns (a1: Key, a2: Key, b1: Key, b2: Key)
    requires Supported(s1) && Supported(s2) && PairCollides(s1, s2)
    ensures OfType(s1, a1) && OfType(s1, a2) && OfType(s2, b1) && OfType(s2, b2)
    ensures (a1, b1) != (a2, b2) && Hash2(a1, b1) == Hash2(a2, b2)
  {
    hide Fold, Pow2;
    a1, a2, b1, b2 := s1, s1, s2, s2;
    if s1.Str? {
      var s, t := StringsCollide(OFFSET);
      a1, a2 := Str(s), Str(t);
    } else if s2.Str? {
      var s, t := StringsCollide(Hash1(s1));
      b1, b2 := Str(s), Str(t);
    } else if s2.Boolean? {
      a1, a2 := TwoOfType(s1);
      BooleanHidesFirst(a1, a2, s2.b);
    } else if Wide(s2) {
      a1, a2 := TwoOfType(s1);
      b2 := WideSecond(a1, a2, b1);
    } else if Wide(s1) {
      b1, b2 := TwoOfType(s2);
      a2 := WideFirst(a1, b1, b2);
    } else if s1.Signed? && s2.Signed? {
      a1 := KeyOf(s1, 0);
      a2, b2 := SignedPartner(a1, b1);
    } else {
      a1, a2, b1, b2 := BothOf32(s1, s2);
    }
  }

  // ---------- pairs that do not collide ----------

  // What multiplication by PRIME does modulo 2^64, as facts on whole numbers: neither a small
  // difference nor the sum of two words that share the upper bits of OFFSET becomes small.

  lemma DifferenceSpreads16(d: int, e: int, k: int)
    requires 0 < d < 0x1_0000 && d * 1099511628211 == k * 0x1_0000_0000_0000_0000 + e
    ensures e <= -0x1_0000_0000 || 0x1_0000_0000 <= e
  {
  }

  lemma DifferenceSpreads32(d: int, e: int, k: int)
    requires 0 < d < 0x1_0000_0000 && d * 1099511628211 == k * 0x1_0000_0000_0000_0000 + e
    ensures e <= -0x1_0000 || 0x1_0000 <= e
  {
    var u, v := d / 0x100_0000, d % 0x100_0000;
    var m := (k - u) * 0x100_0000 - v;
    assert 435 * d - e == m * 0x100_0000_0000;
    assert 0x100_0000 * 435 * k == m * 0x100_0000_0000 + 435 * m + e;
    assert -0x1_0000 < e < 0x1_0000 ==> m in {0, 1};
  }

  lemma SumSpreads16(t: int, e: int, k: int)
    requires 0 <= t < 0x2_0000 && (29391962078693294080 + t) * 1099511628211 == k * 0x1_0000_0000_0000_0000 + e
    ensures e < -0x1_0000_0000 || 0x1_0000_0000 <= e
  {
  }

  lemma SumSpreads32(t: int, e: int, k: int)
    requires 0 <= t < 0x2_0000_0000 && (29391962074259652608 + t) * 1099511628211 == k * 0x1_0000_0000_0000_0000 + e
    ensures e < -0x1_0000 || 0x1_0000 <= e
  {
    var u, v := t / 0x100_0000, t % 0x100_0000;
    var m := (k - 1751897459381 - u) * 0x100_0000 - v - 1737006;
    assert 927712935936 + 435 * t - e == m * 0x100_0000_0000;
    assert 0x100_0000 * 435 * (k - 1751897459381) == m * 0x100_0000_0000 + 435 * (1737006 + m) - 927712935936 + e;
    assert -0x1_0000 <= e < 0x1_0000 ==> m in {0, 1, 2, 3, 4};
  }

  /** The two ways to divide the upper from the lower bits that matter. */
  predicate Split(p1: nat, p2: nat) {
    (p1 == 0x1_0000 && p2 == 0x1_0000_0000) || (p1 == 0x1_0000_0000 && p2 == 0x1_0000)
  }

  /** Words that are near have products that are not. */
  lemma NearProducts(x1: Word, x2: Word, p1: nat, p2: nat)
    requires Split(p1, p2) && Near(x1, x2, p1) && Near(Product(x1), Product(x2), p2)
    ensures x1 == x2
  {
    if x2 < x1 {
      GreaterProduct(x1, x2, p1, p2);
    } else if x1 < x2 {
      GreaterProduct(x2, x1, p1, p2);
    }
  }

  lemma GreaterProduct(x1: Word, x2: Word, p1: nat, p2: nat)
    requires Split(p1, p2) && x2 < x1 && Near(x1, x2, p1)
    ensures !Near(Product(x1), Product(x2), p2) && !Near(Product(x2), Product(x1), p2)
  {
    var k := x1 * PRIME / TWO_TO_64 - x2 * PRIME / TWO_TO_64;
    var d, e := x1 - x2, Product(x1) - Product(x2);
    ProductDifference(x1, x2);
    hide Product;
    if p1 == 0x1_0000 {
      DifferenceSpreads16(d, e, k);
    } else {
      DifferenceSpreads32(d, e, k);
    }
  }

  lemma ProductDifference(x1: Word, x2: Word)
    ensures (x1 - x2) * PRIME ==
            (x1 * PRIME / TWO_TO_64 - x2 * PRIME / TWO_TO_64) * TWO_TO_64 + (Product(x1) - Product(x2))
  {
    var q1, q2 := x1 * PRIME / TWO_TO_64, x2 * PRIME / TWO_TO_64;
    assert x1 * PRIME == q1 * TWO_TO_64 + Product(x1) && x2 * PRIME == q2 * TWO_TO_64 + Product(x2);
  }

  /** Two words near OFFSET have products that do not complement each other. */
  lemma SumProducts(x1: Word, x2: Word, p1: nat, p2: nat)
    requires Split(p1, p2) && Near(OFFSET, x1, p1) && Near(OFFSET, x2, p1)
    ensures !Near(Product(x1), ONES - Product(x2), p2)
  {
    var k := x1 * PRIME / TWO_TO_64 + x2 * PRIME / TWO_TO_64 + 1;
    var e := Product(x1) + Product(x2) - TWO_TO_64;
    assert (x1 + x2) * PRIME == k * TWO_TO_64 + e;
    if p1 == 0x1_0000 {
      SumSpreads16(x1 + x2 - 29391962078693294080, e, k);
    } else {
      SumSpreads32(x1 + x2 - 29391962074259652608, e, k);
    }
  }

  /** A word near OFFSET and one near its complement have products that are not near. */
  lemma OppositeProducts(x1: Word, x2: Word, p1: nat, p2: nat)
    requires Split(p1, p2) && Near(OFFSET, x1, p1) && Near(OFFSET, ONES - x2, p1)
    ensures !Near(Product(x1), Product(x2), p2)
  {
    var k := x1 * PRIME / TWO_TO_64 - x2 * PRIME / TWO_TO_64 + PRIME;
    var e := Product(x1) - Product(x2);
    var sum := x1 + (ONES - x2) + 1;
    assert sum * PRIME == k * TWO_TO_64 + e;
    if p1 == 0x1_0000 {
      SumSpreads16(sum - 29391962078693294080, e, k);
    } else {
      SumSpreads32(sum - 29391962074259652608, e, k);
    }
  }

  /** An integer of at most n bits converts to a word whose upper bits are all zeros or all ones. */
  lemma UpperBits(k: Key, n: nat)
    requires IntegerKey(k) && k.width <= n && (n == 16 || n == 32)
    ensures ToWord(k) < Pow2(n) || (k.Signed? && TWO_TO_64 - Pow2(n) <= ToWord(k))
    ensures Pow2(16) == 0x1_0000 && Pow2(32) == 0x1_0000_0000
  {
    hide Pow2;
    Pow2Values();
    ToWordFits(k);
    if k.width < n { Pow2Monotone(k.width, n); }
    Pow2Monotone(k.width - 1, n);
  }

  lemma UpperXor(u: Word, v: Word, n: nat)
    ensures u < Pow2(n) && v < Pow2(n) ==> Xor(u, v) < Pow2(n)
    ensures TWO_TO_64 - Pow2(n) <= u && TWO_TO_64 - Pow2(n) <= v ==> Xor(u, v) < Pow2(n)
    ensures u < Pow2(n) && TWO_TO_64 - Pow2(n) <= v ==> TWO_TO_64 - Pow2(n) <= Xor(u, v)
  {
    hide Pow2, Xor;
    if u < Pow2(n) && v < Pow2(n) {
      XorBound(u, v, n);
    }
    if u < Pow2(n) && TWO_TO_64 - Pow2(n) <= v {
      XorBound(u, ONES - v, n);
      OppositeXor(u, v);
    }
    ComplementBoth(u, v);
    if TWO_TO_64 - Pow2(n) <= u && TWO_TO_64 - Pow2(n) <= v {
      XorBound(ONES - u, ONES - v, n);
    }
  }

  lemma ComplementBoth(u: Word, v: Word)
    ensures Xor(ONES - u, ONES - v) == Xor(u, v)
  {
    OppositeXor(u, v);
    OppositeXor(ONES - v, u);
    XorCommutes(u, ONES - v);
    XorCommutes(ONES - u, ONES - v);
  }

  /** What the conversion to a word says about the seeded word. */
  lemma SeededNear(u: Word, n: nat)
    ensures u < Pow2(n) ==> Near(OFFSET, Seeded(u), Pow2(n))
    ensures TWO_TO_64 - Pow2(n) <= u ==> Near(OFFSET, ONES - Seeded(u), Pow2(n))
  {
    NearIff(OFFSET, Seeded(u), n);
    OppositeIff(OFFSET, Seeded(u), n);
    SeededTwice(u);
  }

  /** The word has the upper bits of an integer of at most n bits: zeros, or ones if it is signed. */
  predicate Narrow(u: Word, signed: bool, n: nat) {
    u < Pow2(n) || (signed && TWO_TO_64 - Pow2(n) <= u)
  }

  /** First words whose products differ in lower bits only are the same. */
  lemma LowDifference(u1: Word, u2: Word, signed: bool, n1: nat, n2: nat)
    requires Split(Pow2(n1), Pow2(n2)) && Narrow(u1, signed, n1) && Narrow(u2, signed, n1)
    requires Near(Product(Seeded(u1)), Product(Seeded(u2)), Pow2(n2))
    ensures Seeded(u1) == Seeded(u2)
  {
    hide Xor, Seeded, Product, Near;
    var x1, x2, p1, p2 := Seeded(u1), Seeded(u2), Pow2(n1), Pow2(n2);
    SeededNear(u1, n1);
    SeededNear(u2, n1);
    NearTransitive(OFFSET, x1, x2, p1);
    NearSymmetric(Product(x1), Product(x2), p2);
    if Near(x1, x2, p1) {
      NearProducts(x1, x2, p1, p2);
    } else if u1 < p1 {
      OppositeProducts(x1, x2, p1, p2);
    } else {
      OppositeProducts(x2, x1, p1, p2);
    }
  }

  lemma SeparateWords(u1: Word, u2: Word, v1: Word, v2: Word, signed1: bool, signed2: bool, n1: nat, n2: nat)
    requires Split(Pow2(n1), Pow2(n2)) && !(signed1 && signed2)
    requires Narrow(u1, signed1, n1) && Narrow(u2, signed1, n1) && Narrow(v1, signed2, n2) && Narrow(v2, signed2, n2)
    requires Xor(v1, v2) == Xor(Product(Seeded(u1)), Product(Seeded(u2)))
    ensures Seeded(u1) == Seeded(u2)
  {
    hide Xor, Seeded, Product, Near, Split;
    var y1, y2 := Product(Seeded(u1)), Product(Seeded(u2));
    UpperXor(v1, v2, n2);
    UpperXor(v2, v1, n2);
    XorCommutes(v1, v2);
    NearIff(y1, y2, n2);
    if Near(y1, y2, Pow2(n2)) {
      LowDifference(u1, u2, signed1, n1, n2);
    } else {
      OppositeIff(y1, y2, n2);
      SeededNear(u1, n1);
      SeededNear(u2, n1);
      SumProducts(Seeded(u1), Seeded(u2), Pow2(n1), Pow2(n2));
    }
  }

  lemma NearTransitive(o: Word, a: Word, b: Word, p: nat)
    requires 0 < p
    ensures Near(o, a, p) && Near(o, b, p) ==> Near(a, b, p)
    ensures (p == 0x1_0000 || p == 0x1_0000_0000) && Near(o, ONES - a, p) && Near(o, ONES - b, p) ==> Near(a, b, p)
  {
  }

  lemma NearSymmetric(a: Word, b: Word, p: nat)
    requires 0 < p
    ensures Near(a, b, p) == Near(b, a, p)
  {
  }

  lemma IntegersApart(a1: Key, a2: Key, b1: Key, b2: Key)
    requires IntegerKey(a1) && IntegerKey(a2) && IntegerKey(b1) && IntegerKey(b2)
    requires SameType(a1, a2) && SameType(b1, b2) && !PairCollides(a1, b1)
    requires Hash2(a1, b1) == Hash2(a2, b2)
    ensures a1 == a2 && b1 == b2
  {
    var n1 := if a1.width == 32 then 32 else 16;
    var n2 := 48 - n1;
    UpperBits(a1, n1);
    UpperBits(a2, n1);
    UpperBits(b1, n2);
    UpperBits(b2, n2);
    var u1, u2, v1, v2 := ToWord(a1), ToWord(a2), ToWord(b1), ToWord(b2);
    Hash2Collides(a1, a2, b1, b2);
    hide Xor;
    SeparateWords(u1, u2, v1, v2, a1.Signed?, b1.Signed?, n1, n2);
    SeededTwice(u1);
    SeededTwice(u2);
    ToWordInjective(a1, a2);
    XorZeroIff(v1, v2);
    XorSelf(Hash1(a1));
    ToWordInjective(b1, b2);
  }

  /** After a boolean comes any integer of at most 32 bits. */
  lemma BooleansApart(a1: Key, a2: Key, b1: Key, b2: Key)
    requires a1.Boolean? && a2.Boolean? && IntegerKey(b1) && IntegerKey(b2)
    requires SameType(b1, b2) && b1.width <= 32 && Hash2(a1, b1) == Hash2(a2, b2)
    ensures a1 == a2 && b1 == b2
  {
    var v1, v2 := ToWord(b1), ToWord(b2);
    MixEqual(Hash1(a1), v1, Hash1(a2), v2);
    HashInteger(Hash1(a1), b1);
    HashInteger(Hash1(a2), b2);
    UpperBits(b1, 32);
    UpperBits(b2, 32);
    UpperXor(v1, v2, 32);
    UpperXor(v2, v1, 32);
    XorCommutes(v1, v2);
    BooleanHashes(a1, a2);
    hide Xor;
    XorZeroIff(v1, v2);
    XorSelf(Hash1(a1));
    ToWordInjective(b1, b2);
  }

  lemma BooleanHashes(a1: Key, a2: Key)
    requires a1.Boolean? && a2.Boolean?
    ensures a1 != a2 ==> Xor(Hash1(a1), Hash1(a2)) == PRIME
  {
    XorZero(OFFSET);
    XorCommutes(OFFSET, PRIME);
    XorTwice(PRIME, OFFSET);
    XorCommutes(OFFSET, Xor(OFFSET, PRIME));
  }

  /** No other pair of types has a collision. */
  lemma PairsApart(a1: Key, a2: Key, b1: Key, b2: Key)
    requires Supported(a1) && Supported(b1) && !PairCollides(a1, b1)
    requires OfType(a1, a2) && OfType(b1, b2) && Hash2(a1, b1) == Hash2(a2, b2)
    ensures a1 == a2 && b1 == b2
  {
    if a1.Boolean? {
      BooleansApart(a1, a2, b1, b2);
    } else {
      IntegersApart(a1, a2, b1, b2);
    }
  }
}
