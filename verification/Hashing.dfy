/** The 64-bit FNV-1a hash of hashing.go and internal/hash/hash.go (section 2, FNV Basics, of
    draft-eastlake-fnv). */
module Hashing {
  import opened Words

  const OFFSET: Word := 14695981039346656037
  const PRIME: Word := 1099511628211

  /** The multiplicative inverse of PRIME modulo 2^64. */
  const INVERSE: Word := 0xce96_5057_aff6_957b

  function Mix(h: Word, x: Word): Word { Xor(h, x) * PRIME % TWO_TO_64 }

  function Unmix(r: Word, x: Word): Word {
    XorWord(r * INVERSE % TWO_TO_64, x);
    Xor(r * INVERSE % TWO_TO_64, x)
  }

  lemma XorWord(a: Word, b: Word)
    ensures Xor(a, b) < TWO_TO_64
  {
    Pow2Values();
    XorBound(a, b, 64);
  }

  lemma ModShift(x: Word, e: int)
    ensures (x + e * TWO_TO_64) % TWO_TO_64 == x
  {
  }

  /** Multiplying by one constant and then by the other changes nothing modulo 2^64. */
  lemma MulInverse(x: Word, a: int, b: int)
    requires a * b % TWO_TO_64 == 1
    ensures x * a % TWO_TO_64 * b % TWO_TO_64 == x
  {
    var c := a * b / TWO_TO_64;
    var p := x * a / TWO_TO_64;
    var y := x * a % TWO_TO_64;
    calc {
      y * b;
    == { assert y == x * a - p * TWO_TO_64; }
      (x * a - p * TWO_TO_64) * b;
    ==
      x * a * b - p * TWO_TO_64 * b;
    == { assert x * a * b == x * (a * b); assert a * b == c * TWO_TO_64 + 1; }
      x * (c * TWO_TO_64 + 1) - p * TWO_TO_64 * b;
    ==
      x + (x * c - p * b) * TWO_TO_64;
    }
    ModShift(x, x * c - p * b);
  }

  /** Mixing is a bijection on words, whatever is mixed in. */
  lemma MixUnmix(h: Word, x: Word)
    ensures Unmix(Mix(h, x), x) == h
    ensures Mix(Unmix(h, x), x) == h
  {
    hide Xor;
    XorWord(h, x);
    MulInverse(Xor(h, x), PRIME, INVERSE);
    XorTwice(h, x);
    XorTwice(h * INVERSE % TWO_TO_64, x);
    MulInverse(h, INVERSE, PRIME);
  }

  // ---------- strings ----------

  /** One byte at a time, first byte first. */
  function Fold(h: Word, s: seq<Byte>): Word {
    if s == [] then h else Mix(Fold(h, s[..|s| - 1]), s[|s| - 1])
  }

  function Unfold(r: Word, s: seq<Byte>): Word
    decreases |s|
  {
    if s == [] then r else Unfold(Unmix(r, s[|s| - 1]), s[..|s| - 1])
  }

  lemma FoldNext(h: Word, s: seq<Byte>, i: nat)
    requires i < |s|
    ensures Fold(h, s[..i + 1]) == Mix(Fold(h, s[..i]), s[i])
  {
    assert s[..i + 1][..i] == s[..i];
  }

  lemma FoldEmpty(h: Word, s: seq<Byte>)
    requires s == []
    ensures Fold(h, s) == h
  {
  }

  lemma FoldFour(h: Word, s: seq<Byte>, i: nat)
    requires i + 3 < |s|
    ensures Fold(h, s[..i + 4]) == Mix(Mix(Mix(Mix(Fold(h, s[..i]), s[i]), s[i + 1]), s[i + 2]), s[i + 3])
  {
    hide Mix;
    FoldNext(h, s, i);
    FoldNext(h, s, i + 1);
    FoldNext(h, s, i + 2);
    FoldNext(h, s, i + 3);
  }

  /** Four bytes per round, then the rest one by one. */
  method HashString(seed: Word, key: seq<Byte>) returns (hash: Word)
    ensures hash == Fold(seed, key)
  {
    hide Mix, Fold;
    assert Fold(seed, key[..0]) == seed by { FoldEmpty(seed, key[..0]); }
    hash := seed;
    var length := |key|;
    var i := 0;
    while i < length / 4 * 4
      invariant i % 4 == 0 && 0 <= i <= length / 4 * 4
      invariant hash == Fold(seed, key[..i])
    {
      FoldFour(seed, key, i);
      hash := Mix(hash, key[i]);
      hash := Mix(hash, key[i + 1]);
      hash := Mix(hash, key[i + 2]);
      hash := Mix(hash, key[i + 3]);
      i := i + 4;
    }
    i := length / 4 * 4;
    while i < length
      invariant length / 4 * 4 <= i <= length
      invariant hash == Fold(seed, key[..i])
    {
      FoldNext(seed, key, i);
      hash := Mix(hash, key[i]);
      i := i + 1;
    }
    assert key[..length] == key;
  }

  /** Hashing a string and then another is hashing their concatenation. */
  lemma {:induction false} FoldConcat(h: Word, a: seq<Byte>, b: seq<Byte>)
    ensures Fold(Fold(h, a), b) == Fold(h, a + b)
  {
    if b == [] {
      assert a + b == a;
    } else {
      var n := |b| - 1;
      FoldConcat(h, a, b[..n]);
      assert (a + b)[..|a + b| - 1] == a + b[..n];
    }
  }

  /** For a fixed string, hashing is a bijection on seeds. */
  lemma {:induction false} FoldBijective(h: Word, s: seq<Byte>)
    ensures Unfold(Fold(h, s), s) == h
    ensures Fold(Unfold(h, s), s) == h
    decreases |s|
  {
    hide Mix, Unmix;
    if s != [] {
      var n := |s| - 1;
      MixUnmix(Fold(h, s[..n]), s[n]);
      FoldBijective(h, s[..n]);
      FoldBijective(Unmix(h, s[n]), s[..n]);
      MixUnmix(h, s[n]);
    }
  }

  // ---------- keys ----------

  /** A key of a supported type. `Signed` and `Unsigned` carry the width of their integer type;
      `Float` carries the bits of the value as a 64-bit float. */
  datatype Key =
    | Str(bytes: seq<Byte>)
    | Signed(width: nat, value: int)
    | Unsigned(width: nat, magnitude: nat)
    | Float(bits: Word)
    | Boolean(b: bool)

  predicate ValidKey(k: Key) {
    match k
    case Signed(w, v) => w in {8, 16, 32, 64} && 0 - Pow2(w - 1) <= v < Pow2(w - 1)
    case Unsigned(w, v) => w in {8, 16, 32, 64} && v < Pow2(w)
    case _ => true
  }

  /** Keys of one memoizer have one type. */
  predicate SameType(a: Key, b: Key) {
    match a
    case Str(_) => b.Str?
    case Signed(w, _) => b.Signed? && b.width == w
    case Unsigned(w, _) => b.Unsigned? && b.width == w
    case Float(_) => b.Float?
    case Boolean(_) => b.Boolean?
  }

  predicate IntegerKey(k: Key) {
    ValidKey(k) && (k.Signed? || k.Unsigned?)
  }

  /** Conversion of an integer to uint64: sign extension, that is, reduction modulo 2^64. */
  function ToWord(k: Key): Word
    requires IntegerKey(k)
  {
    match k
    case Signed(_, v) => v % TWO_TO_64
    case Unsigned(w, v) => v % TWO_TO_64
  }

  /** The two constants of hashing.go; the product binds tighter than the exclusive or. */
  const TRUE_HASH: nat := Xor(OFFSET, 1 * PRIME)
  const FALSE_HASH: nat := Xor(OFFSET, 0 * PRIME)

  /** `hash` of hashing.go: a boolean key replaces the accumulator instead of mixing into it. */
  function Hash(h: Word, k: Key): Word
    requires ValidKey(k)
  {
    match k
    case Str(bytes) => Fold(h, bytes)
    case Float(bits) => Mix(h, bits)
    case Boolean(b) => XorWord(OFFSET, PRIME); XorWord(OFFSET, 0); if b then TRUE_HASH else FALSE_HASH
    case _ => Mix(h, ToWord(k))
  }

  /** `Comparable` of internal/hash/hash.go. */
  function Comparable(h: Word, k: Key): Word
    requires ValidKey(k)
  {
    match k
    case Str(bytes) => Fold(h, bytes)
    case Float(bits) => Mix(h, bits)
    case Boolean(b) => if b then Mix(h, 1) else h * PRIME % TWO_TO_64
    case _ => Mix(h, ToWord(k))
  }

  function Hash1(k: Key): Word
    requires ValidKey(k)
  { Hash(OFFSET, k) }

  function Hash2(k1: Key, k2: Key): Word
    requires ValidKey(k1) && ValidKey(k2)
  { Hash(Hash(OFFSET, k1), k2) }

  // ---------- when hashes collide ----------

  /** Two mixes agree exactly when the inputs differ in the same bits as the accumulators. */
  lemma MixEqual(g: Word, x: Word, h: Word, y: Word)
    ensures Mix(g, x) == Mix(h, y) <==> Xor(x, y) == Xor(g, h)
  {
    hide Xor;
    XorEqual(g, x, h, y);
    XorWord(g, x);
    XorWord(h, y);
    MulEqual(Xor(g, x), Xor(h, y));
  }

  lemma MulEqual(x: Word, y: Word)
    ensures x * PRIME % TWO_TO_64 == y * PRIME % TWO_TO_64 <==> x == y
  {
    MulInverse(x, PRIME, INVERSE);
    MulInverse(y, PRIME, INVERSE);
  }

  lemma XorZeroIff(a: nat, b: nat)
    ensures Xor(a, b) == 0 <==> a == b
  {
    XorSelf(a);
    XorTwice(a, b);
    XorCommutes(0, b);
    XorZero(b);
  }

  lemma WidthBound(w: nat)
    requires 1 <= w <= 64
    ensures Pow2(w - 1) <= 0x8000_0000_0000_0000 && Pow2(w) <= TWO_TO_64
  {
    hide Pow2;
    Pow2Values();
    if w != 64 {
      Pow2Monotone(w - 1, 63);
      Pow2Monotone(w, 64);
    }
  }

  lemma SignedToWordInjective(v: int, u: int)
    requires -0x8000_0000_0000_0000 <= v < 0x8000_0000_0000_0000 && -0x8000_0000_0000_0000 <= u < 0x8000_0000_0000_0000
    ensures v % TWO_TO_64 == u % TWO_TO_64 <==> v == u
  {
    assert v % TWO_TO_64 == if v < 0 then v + TWO_TO_64 else v;
    assert u % TWO_TO_64 == if u < 0 then u + TWO_TO_64 else u;
  }

  /** Sign extension loses nothing within one integer type. */
  lemma ToWordInjective(a: Key, b: Key)
    requires IntegerKey(a) && IntegerKey(b) && SameType(a, b)
    ensures ToWord(a) == ToWord(b) <==> a == b
  {
    hide Pow2;
    WidthBound(a.width);
    if a.Signed? {
      SignedToWordInjective(a.value, b.value);
    }
  }

  /** One integer key: the hash is injective, so no two arguments share a cache entry. */
  lemma Hash1Injective(a: Key, b: Key)
    requires ValidKey(a) && ValidKey(b) && SameType(a, b) && (IntegerKey(a) || a.Boolean?)
    ensures Hash1(a) == Hash1(b) <==> a == b
  {
    if a.Boolean? {
      XorCommutes(OFFSET, PRIME);
      XorTwice(PRIME, OFFSET);
      XorZeroIff(OFFSET, OFFSET);
      XorZero(OFFSET);
    } else {
      MixEqual(OFFSET, ToWord(a), OFFSET, ToWord(b));
      XorSelf(OFFSET);
      XorZeroIff(ToWord(a), ToWord(b));
      ToWordInjective(a, b);
    }
  }

  /** Two integer keys: exactly these pairs collide. */
  lemma Hash2Collides(a1: Key, a2: Key, b1: Key, b2: Key)
    requires IntegerKey(a1) && IntegerKey(a2) && IntegerKey(b1) && IntegerKey(b2)
    ensures Hash2(a1, b1) == Hash2(a2, b2) <==>
              Xor(ToWord(b1), ToWord(b2)) == Xor(Hash1(a1), Hash1(a2))
  {
    MixEqual(Hash1(a1), ToWord(b1), Hash1(a2), ToWord(b2));
  }

  /** A boolean in second place hides the first argument altogether. */
  lemma BooleanHidesFirst(a1: Key, a2: Key, b: bool)
    requires ValidKey(a1) && ValidKey(a2)
    ensures Hash2(a1, Boolean(b)) == Hash2(a2, Boolean(b))
    ensures Comparable(Comparable(OFFSET, a1), Boolean(b)) == Comparable(Comparable(OFFSET, a2), Boolean(b)) <==>
              Comparable(OFFSET, a1) == Comparable(OFFSET, a2)
  {
    hide Mix, Xor;
    var g, h := Comparable(OFFSET, a1), Comparable(OFFSET, a2);
    MixEqual(g, 1, h, 1);
    XorSelf(1);
    XorZeroIff(g, h);
    MulEqual(g, h);
  }

  /** The boundary between two string arguments is not hashed. */
  lemma StringBoundaryLost(a: seq<Byte>, b: seq<Byte>, c: seq<Byte>)
    ensures Hash2(Str(a + b), Str(c)) == Hash2(Str(a), Str(b + c))
  {
    FoldConcat(OFFSET, a + b, c);
    FoldConcat(OFFSET, a, b + c);
    assert a + b + c == a + (b + c);
  }

  /** Every word is the hash that routes some 64-bit key to its shard. */
  lemma RouteSurjective(r: Word) returns (k: Key)
    ensures k.Unsigned? && k.width == 64 && ValidKey(k) && Comparable(OFFSET, k) == r
  {
    hide Xor;
    Pow2Values();
    var y: Word := r * INVERSE % TWO_TO_64;
    XorWord(y, OFFSET);
    k := Unsigned(64, Xor(y, OFFSET));
    XorTwice(y, OFFSET);
    XorCommutes(OFFSET, k.magnitude);
    MulInverse(r, INVERSE, PRIME);
  }
}
