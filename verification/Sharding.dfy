/** How stores/memory/sharded.go chooses the number of shards, splits its limits and routes keys. */
module Sharding {
  import opened Words
  import opened Hashing

  const MIN_INT: int := -0x8000_0000_0000_0000

  // ---------- the next power of two ----------

  /** The bits of `m` from `t` down, `s` of them, are ones. */
  ghost predicate TopOnes(m: nat, t: nat, s: nat) {
    m < Pow2(t + 1) && forall i: nat | t < i + s && i <= t :: Bit(m, i) == 1
  }

  lemma {:induction false} OrBound(a: nat, b: nat, k: nat)
    requires a < Pow2(k) && b < Pow2(k)
    ensures Or(a, b) < Pow2(k)
  {
    if k != 0 {
      OrBound(a / 2, b / 2, k - 1);
    }
  }

  lemma {:induction false} ShrBound(a: nat, s: nat)
    ensures Shr(a, s) <= a
  {
    if s != 0 {
      ShrBound(a / 2, s - 1);
    }
  }

  /** Smearing by `s` doubles the run of leading ones. */
  lemma Smear(m: nat, t: nat, s: nat)
    requires TopOnes(m, t, s)
    ensures TopOnes(Or(m, Shr(m, s)), t, 2 * s)
  {
    ShrBound(m, s);
    OrBound(m, Shr(m, s), t + 1);
    forall i: nat | t < i + 2 * s && i <= t ensures Bit(Or(m, Shr(m, s)), i) == 1 {
      OrBit(m, Shr(m, s), i);
      ShiftBit(m, s, i);
    }
  }

  lemma {:induction false} TopBit(m: nat) returns (t: nat)
    requires 0 < m
    ensures Pow2(t) <= m < Pow2(t + 1) && Bit(m, t) == 1
  {
    if m == 1 {
      t := 0;
    } else {
      t := TopBit(m / 2);
      t := t + 1;
    }
  }

  lemma {:induction false} AllOnes(m: nat, t: nat)
    requires m < Pow2(t + 1) && forall i: nat | i <= t :: Bit(m, i) == 1
    ensures m == Pow2(t + 1) - 1
  {
    assert Bit(m, 0) == 1;
    if t == 0 {
      assert Pow2(1) == 2;
    } else {
      forall i: nat | i <= t - 1 ensures Bit(m / 2, i) == 1 {
        assert Bit(m, i + 1) == 1;
      }
      AllOnes(m / 2, t - 1);
    }
  }

  /** Up to 2^62 the result is the least power of two that is not below `n`; above, the addition
      overflows to the least integer. */
  method NextPowerOfTwo(n: int) returns (r: int)
    requires MIN_INT <= n < -MIN_INT
    ensures n <= Pow2(62) ==> n <= r && IsPow2(r) && forall p | IsPow2(p) && n <= p :: r <= p
    ensures Pow2(62) < n ==> r == MIN_INT
  {
    if n <= 1 {
      return 1;
    }
    var m: nat := n - 1;
    ghost var t := TopBit(m);
    assert TopOnes(m, t, 1);
    Smear(m, t, 1);
    m := Or(m, Shr(m, 1));
    Smear(m, t, 2);
    m := Or(m, Shr(m, 2));
    Smear(m, t, 4);
    m := Or(m, Shr(m, 4));
    Smear(m, t, 8);
    m := Or(m, Shr(m, 8));
    Smear(m, t, 16);
    m := Or(m, Shr(m, 16));
    Smear(m, t, 32);
    m := Or(m, Shr(m, 32));
    TopAndNext(n, t);
    AllOnes(m, t);
    r := if m + 1 == -MIN_INT then MIN_INT else m + 1;
  }

  /** The least power of two that is not below `n` is the one above the top bit of n - 1. */
  lemma TopAndNext(n: int, t: nat)
    requires Pow2(t) <= n - 1 < Pow2(t + 1) && n < -MIN_INT
    ensures t <= 62 && (t == 62 <==> Pow2(62) < n)
    ensures IsPow2(Pow2(t + 1)) && n <= Pow2(t + 1) && forall p | IsPow2(p) && n <= p :: Pow2(t + 1) <= p
    ensures Pow2(t + 1) == -MIN_INT <==> t == 62
  {
    Pow2Values();
    if 63 < t { Pow2Monotone(63, t); }
    if t < 62 { Pow2Monotone(t, 62); Pow2Monotone(t + 1, 63); }
    Pow2Is(t);
    Pow2Is(t + 1);
    forall p | IsPow2(p) && n <= p ensures Pow2(t + 1) <= p {
      Pow2Gap(Pow2(t), p);
    }
  }

  // ---------- the number of shards ----------

  lemma {:induction false} AndSelf(a: nat)
    ensures And(a, a) == a
  {
    if a != 0 {
      AndSelf(a / 2);
    }
  }

  /** The classic test: n & (n - 1) is zero exactly for powers of two. */
  lemma {:induction false} PowerOfTwoTest(n: nat)
    requires 0 < n
    ensures And(n, n - 1) == 0 <==> IsPow2(n)
  {
    if n % 2 == 0 {
      PowerOfTwoTest(n / 2);
      assert (n - 1) / 2 == n / 2 - 1;
    } else if n != 1 {
      AndSelf(n / 2);
      assert (n - 1) / 2 == n / 2;
    }
  }

  datatype ShardCount = Panics | Shards(count: nat)

  /** The shard count of a new store: the requested one, or by default the next power of two above
      16 per processor, halved until it is at most the capacity. */
  method ChooseShards(requested: int, processors: nat, capacity: int) returns (r: ShardCount)
    requires MIN_INT <= requested < -MIN_INT && 0 < capacity < -MIN_INT && 16 * processors <= Pow2(62)
    ensures r.Panics? <==> requested != 0 && !IsPow2(requested)
    ensures r.Shards? ==> IsPow2(r.count) && r.count <= capacity
    ensures r.Shards? && requested != 0 ==> r.count <= requested
    ensures r.Shards? && requested == 0 ==> forall p | IsPow2(p) && 16 * processors <= p :: r.count <= p
    ensures r.Shards? ==>
              var wanted := if requested != 0 then requested else 16 * processors;
              forall p | IsPow2(p) && p <= wanted && p <= capacity :: p <= r.count
  {
    Pow2Values();
    var shardCount := requested;
    if shardCount == 0 {
      shardCount := NextPowerOfTwo(processors * 16);
    }
    if shardCount <= 0 {
      return Panics;
    }
    PowerOfTwoTest(shardCount);
    if And(shardCount, shardCount - 1) != 0 {
      return Panics;
    }
    ghost var full := shardCount;
    while shardCount > capacity
      invariant 0 < shardCount <= full && IsPow2(shardCount)
      invariant forall p | IsPow2(p) && p <= full && p <= capacity :: p <= shardCount
      decreases shardCount
    {
      forall p | IsPow2(p) && p <= full && p <= capacity ensures p <= shardCount / 2 {
        Pow2Gap(p, shardCount);
      }
      shardCount := shardCount / 2;
    }
    if shardCount == 0 {
      shardCount := 1;
    }
    r := Shards(shardCount);
  }

  // ---------- routing ----------

  /** The key types that `shardHash` supports. */
  predicate Routable(k: Key) {
    ValidKey(k) && !k.Float?
  }

  function ShardIndex(k: Key, shards: nat): nat
    requires Routable(k) && 0 < shards
  {
    And(Shr(Comparable(OFFSET, k), 16), shards - 1)
  }

  /** The masked index is always that of a shard. */
  lemma ShardIndexInRange(k: Key, shards: nat)
    requires Routable(k) && IsPow2(shards)
    ensures ShardIndex(k, shards) < shards
  {
    var j := Log2(shards);
    MaskIsMod(Shr(Comparable(OFFSET, k), 16), j);
  }

  /** A shard is chosen by the bits of the hash from bit 16 on. */
  lemma ShardIndexBits(k: Key, shards: nat)
    requires Routable(k) && IsPow2(shards)
    ensures ShardIndex(k, shards) == Comparable(OFFSET, k) / 0x1_0000 % shards
  {
    var h := Comparable(OFFSET, k);
    hide Shr, And, Comparable, Pow2;
    var j := Log2(shards);
    MaskIsMod(Shr(h, 16), j);
    ShrBounds(h, 16);
    Pow2Values();
    ModUnique(h, 0x1_0000, Shr(h, 16), h - Shr(h, 16) * 0x1_0000);
  }

  lemma TimesBelow(a: nat, b: nat, p: nat)
    requires a < b && 0 < p
    ensures a * p < b * p
  {
    assert (b - a) * p > 0;
  }

  /** A word whose upper 48 bits are `i`. */
  lemma ShiftedWord(i: nat) returns (r: Word)
    requires i < Pow2(48)
    ensures Shr(r, 16) == i
  {
    hide Shr, Pow2;
    Pow2Values();
    Pow2Add(48, 16);
    TimesBelow(i, Pow2(48), Pow2(16));
    r := i * Pow2(16);
    ShrPow2(i, 16);
  }

  lemma MaskKeeps(i: nat, n: nat)
    requires IsPow2(n) && i < n
    ensures And(i, n - 1) == i
  {
    var j := Log2(n);
    hide IsPow2, Pow2, And;
    MaskIsMod(i, j);
    SmallMod(i, n);
  }

  lemma SmallMod(i: nat, n: nat)
    requires i < n
    ensures i % n == i
  {
  }

  /** Every shard is some key's, as long as there are no more than the 48 bits used can address. */
  lemma ShardReached(i: nat, shards: nat) returns (k: Key)
    requires IsPow2(shards) && i < shards <= Pow2(48)
    ensures Routable(k) && k.Unsigned? && k.width == 64 && ShardIndex(k, shards) == i
  {
    hide Shr, And, Comparable, Pow2, IsPow2, ValidKey;
    var r := ShiftedWord(i);
    k := RouteSurjective(r);
    MaskKeeps(i, shards);
  }

  // ---------- splitting a limit ----------

  /** The part of `total` that shard `i` gets. */
  function Share(total: nat, shards: nat, i: nat): nat
    requires i < shards
  {
    total / shards + if i < total % shards then 1 else 0
  }

  function SumShares(total: nat, shards: nat, n: nat): nat
    requires n <= shards
  {
    if n == 0 then 0 else SumShares(total, shards, n - 1) + Share(total, shards, n - 1)
  }

  lemma {:induction false} SumSharesUpTo(total: nat, shards: nat, n: nat)
    requires n <= shards && 0 < shards
    ensures SumShares(total, shards, n) == n * (total / shards) + if n < total % shards then n else total % shards
  {
    if n != 0 {
      SumSharesUpTo(total, shards, n - 1);
      assert n * (total / shards) == (n - 1) * (total / shards) + total / shards;
    }
  }

  /** Shares differ by one at most, and the earlier ones are the larger. */
  lemma SharesEven(total: nat, shards: nat, i: nat, j: nat)
    requires i <= j < shards
    ensures Share(total, shards, j) <= Share(total, shards, i) <= Share(total, shards, j) + 1
  {
  }

  /** The shares add up to the total, and with no more shards than units each gets one. */
  lemma SharesAddUp(total: nat, shards: nat)
    requires 0 < shards
    ensures SumShares(total, shards, shards) == total
    ensures shards <= total ==> forall i | 0 <= i < shards :: 0 < Share(total, shards, i)
  {
    SumSharesUpTo(total, shards, shards);
    assert total == shards * (total / shards) + total % shards;
    if shards <= total {
      AtLeastOne(total, shards);
    }
  }

  lemma AtLeastOne(a: nat, b: nat)
    requires 0 < b <= a
    ensures 1 <= a / b
  {
  }
}
