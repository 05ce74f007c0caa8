/** What the hash of a string depends on: on every byte of it. */
module StringHashing {
  import opened Words
  import opened Hashing
  import opened PairHashing

  /** The strings differ at most in two adjacent bytes: in one byte that is replaced, for instance, or in
      two neighbours that change places. */
  ghost predicate Alike(s: seq<Byte>, t: seq<Byte>) {
    |s| == |t| && exists i: nat, n: nat | i <= |s| && n <= 2 && i + n <= |s| :: SameOutside(s, t, i, n)
  }

  predicate SameOutside(s: seq<Byte>, t: seq<Byte>, i: nat, n: nat)
    requires |s| == |t| && i + n <= |s|
  {
    s[..i] == t[..i] && s[i + n..] == t[i + n..]
  }

  lemma SeedApart(g: Word, h: Word, s: seq<Byte>)
    ensures Fold(g, s) == Fold(h, s) <==> g == h
  {
    FoldBijective(g, s);
    FoldBijective(h, s);
  }

  lemma MixApart(h: Word, x: Word, y: Word)
    ensures Mix(h, x) == Mix(h, y) <==> x == y
  {
    MixEqual(h, x, h, y);
    XorSelf(h);
    XorZeroIff(x, y);
  }

  lemma BytesNear(x: Byte, y: Byte)
    ensures Xor(x, y) < 256
  {
    Pow2Values();
    XorBound(x, y, 8);
  }

  /** Mixing in two bytes in turn tells them apart. */
  lemma TwoMixesApart(h: Word, x1: Byte, x2: Byte, y1: Byte, y2: Byte)
    ensures Mix(Mix(h, x1), x2) == Mix(Mix(h, y1), y2) <==> x1 == y1 && x2 == y2
  {
    hide Xor, Near;
    if Mix(Mix(h, x1), x2) == Mix(Mix(h, y1), y2) {
      Pow2Values();
      XorWord(h, x1);
      XorWord(h, y1);
      MixEqual(Mix(h, x1), x2, Mix(h, y1), y2);
      BytesNear(x2, y2);
      NearIff(Mix(h, x1), Mix(h, y1), 32);
      BytesNear(x1, y1);
      SeedsCancel(h, x1, y1);
      NearIff(Xor(h, x1), Xor(h, y1), 16);
      NearProducts(Xor(h, x1), Xor(h, y1), 0x1_0000, 0x1_0000_0000);
      MixApart(h, x1, y1);
      MixApart(Mix(h, x1), x2, y2);
    }
  }

  lemma SeedsCancel(h: nat, x: nat, y: nat)
    ensures Xor(Xor(h, x), Xor(h, y)) == Xor(x, y)
  {
    XorCommutes(h, x);
    XorAssociates(x, h, Xor(h, y));
    XorAssociates(h, h, y);
    XorSelf(h);
    XorCommutes(0, y);
    XorZero(y);
  }

  lemma FoldPair(h: Word, m: seq<Byte>)
    requires |m| <= 2
    ensures Fold(h, m) == if |m| == 0 then h else if |m| == 1 then Mix(h, m[0]) else Mix(Mix(h, m[0]), m[1])
  {
    hide Mix;
    if |m| == 2 {
      assert m[..1][..0] == [];
    } else if |m| == 1 {
      assert m[..0] == [];
    }
  }

  /** Around a part that differs, everything is the same. */
  lemma FoldAround(h: Word, a: seq<Byte>, x: seq<Byte>, y: seq<Byte>, b: seq<Byte>)
    ensures Fold(h, a + x + b) == Fold(h, a + y + b) <==> Fold(Fold(h, a), x) == Fold(Fold(h, a), y)
  {
    hide Fold;
    FoldConcat(h, a, x);
    FoldConcat(h, a, y);
    FoldConcat(h, a + x, b);
    FoldConcat(h, a + y, b);
    SeedApart(Fold(h, a + x), Fold(h, a + y), b);
  }

  /** Strings that differ at most in two adjacent bytes have different hashes, for every seed. */
  lemma AlikeApart(h: Word, s: seq<Byte>, t: seq<Byte>)
    requires Alike(s, t)
    ensures Fold(h, s) == Fold(h, t) <==> s == t
  {
    var i: nat, n: nat :| i <= |s| && n <= 2 && i + n <= |s| && SameOutside(s, t, i, n);
    var a, x, y, b := s[..i], s[i..i + n], t[i..i + n], s[i + n..];
    assert s == a + x + b && t == a + y + b;
    hide Fold, Mix, Alike;
    FoldAround(h, a, x, y, b);
    ShortApart(Fold(h, a), x, y);
  }

  lemma ShortApart(g: Word, x: seq<Byte>, y: seq<Byte>)
    requires |x| == |y| <= 2
    ensures Fold(g, x) == Fold(g, y) <==> x == y
  {
    FoldPair(g, x);
    FoldPair(g, y);
    hide Fold, Mix;
    if |x| == 1 {
      MixApart(g, x[0], y[0]);
    } else if |x| == 2 {
      TwoMixesApart(g, x[0], x[1], y[0], y[1]);
    }
  }

  // ---------- keys ----------

  /** Keys of one type that are told apart by every hash: all but strings, and strings that differ at
      most in two adjacent bytes. */
  ghost predicate ToldApart(a: Key, b: Key) {
    ValidKey(a) && ValidKey(b) && SameType(a, b) && (a.Str? ==> Alike(a.bytes, b.bytes))
  }

  /** Both hashes depend on every part of a key. */
  lemma KeysApart(h: Word, a: Key, b: Key)
    requires ToldApart(a, b)
    ensures Hash(h, a) == Hash(h, b) <==> a == b
    ensures Comparable(h, a) == Comparable(h, b) <==> a == b
  {
    match a
    case Str(s) => AlikeApart(h, s, b.bytes);
    case Float(x) => MixApart(h, x, b.bits);
    case Boolean(_) =>
      Hash1Injective(a, b);
      MixApart(h, 0, 1);
      XorZero(h);
    case _ =>
      MixApart(h, ToWord(a), ToWord(b));
      ToWordInjective(a, b);
  }

  /** They also depend on all that was hashed before, except that a boolean hides it in `hash`. */
  lemma SeedsApart(g: Word, h: Word, k: Key)
    requires ValidKey(k)
    ensures Hash(g, k) == Hash(h, k) <==> g == h || k.Boolean?
    ensures Comparable(g, k) == Comparable(h, k) <==> g == h
  {
    match k
    case Str(s) => SeedApart(g, h, s);
    case Float(x) => MixSeeds(g, h, x);
    case Boolean(b) =>
      MixSeeds(g, h, 1);
      MulEqual(g, h);
    case _ => MixSeeds(g, h, ToWord(k));
  }

  lemma MixSeeds(g: Word, h: Word, x: Word)
    ensures Mix(g, x) == Mix(h, x) <==> g == h
  {
    MixUnmix(g, x);
    MixUnmix(h, x);
  }

  // ---------- the published values ----------

  lemma XorLowStep(q: nat, p: nat, r: nat, b: nat)
    requires Xor(q * p + r / 2, b / 2) == q * p + Xor(r / 2, b / 2)
    ensures Xor(q * (2 * p) + r, b) == q * (2 * p) + Xor(r, b)
  {
    hide Xor;
    var m, a := q * p, q * (2 * p) + r;
    HalveSum(q, p, r, b);
    XorStep(a, b);
    XorStep(r, b);
    assert q * (2 * p) == 2 * m;
  }

  lemma HalveSum(q: nat, p: nat, r: nat, b: nat)
    ensures (q * (2 * p) + r) / 2 == q * p + r / 2 && (q * (2 * p) + r + b) % 2 == (r + b) % 2
  {
    var m := q * p;
    assert q * (2 * p) == 2 * m;
  }

  /** An exclusive or with a small number changes the low bits only. */
  lemma {:induction false} XorLow(q: nat, r: nat, b: nat, k: nat)
    requires r < Pow2(k) && b < Pow2(k)
    ensures Xor(q * Pow2(k) + r, b) == q * Pow2(k) + Xor(r, b)
  {
    if k == 0 {
      XorZero(q);
    } else {
      XorLow(q, r / 2, b / 2, k - 1);
      XorLowStep(q, Pow2(k - 1), r, b);
      hide Xor;
    }
  }

  lemma MixByte(h: Word, low: Byte, x: Byte, mixed: Byte, r: Word)
    requires h % 256 == low && Xor(low, x) == mixed && r == (h / 256 * 256 + mixed) * PRIME % TWO_TO_64
    ensures Mix(h, x) == r
  {
    hide Xor;
    Pow2Values();
    XorLow(h / 256, low, x, 8);
  }

  /** The published test vectors of 64-bit FNV-1a for the empty string and for "a". */
  lemma TestVectors()
    ensures Hash1(Str([])) == 0xcbf2_9ce4_8422_2325
    ensures Hash1(Str([0x61])) == 0xaf63_dc4c_8601_ec8c
  {
    hide Xor, Mix, Fold;
    FoldEmpty(OFFSET, []);
    FoldPair(OFFSET, [0x61]);
    XorStep(0x25, 0x61);
    XorStep(0x12, 0x30);
    XorStep(0x09, 0x18);
    XorStep(0x04, 0x0c);
    XorStep(0x02, 0x06);
    XorStep(0x01, 0x03);
    XorStep(0x00, 0x01);
    XorZero(0);
    MixByte(OFFSET, 0x25, 0x61, 0x44, 0xaf63_dc4c_8601_ec8c);
  }
}
