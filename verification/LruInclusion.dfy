/** When a smaller LRU store holds, on every run, a part of what a larger one holds. */
module LruInclusion {
  import opened Envelope
  import opened Words
  import opened LruSpec
  import opened LruTheorems

  /** `small` is `big` with some keys taken out: the same entries in the same recency order. */
  ghost predicate Included<K(!new), V>(small: seq<Entry<K, V>>, big: seq<Entry<K, V>>) {
    exists gone: set<K> :: small == Drop(big, gone)
  }

  /** The pair of caches in lock step. The bound on the difference in size is what makes the big
      cache full only when the small one is. */
  ghost predicate Coupled<K, V>(c1: Config, c2: Config, small: seq<Entry<K, V>>, big: seq<Entry<K, V>>, gone: set<K>) {
    && WithinLimits(c1, small) && WithinLimits(c2, big)
    && small == Drop(big, gone)
    && |big| - |small| <= c2.cap - c1.cap
  }

  lemma {:induction false} DropSame<K, V>(es: seq<Entry<K, V>>, s: set<K>, t: set<K>)
    requires forall e | e in es :: e.key in s <==> e.key in t
    ensures Drop(es, s) == Drop(es, t)
  {
    if es != [] {
      assert es[0] in es;
      DropSame(es[1..], s, t);
    }
  }

  lemma DropCommutes<K, V>(es: seq<Entry<K, V>>, s: set<K>, t: set<K>)
    ensures Drop(Drop(es, s), t) == Drop(Drop(es, t), s)
  {
    DropDrop(es, s, t);
    DropDrop(es, t, s);
    assert s + t == t + s;
  }

  /** Dropping keys shrinks the bigger sequence by at least as much. */
  lemma {:induction false} DropShrinks<K, V>(big: seq<Entry<K, V>>, gone: set<K>, keys: set<K>)
    ensures |Drop(big, keys)| - |Drop(Drop(big, gone), keys)| <= |big| - |Drop(big, gone)|
  {
    if big != [] {
      DropShrinks(big[1..], gone, keys);
      DropHead(big, gone);
      DropHead(big, keys);
      if big[0].key !in gone {
        var rest := Drop(big[1..], gone);
        assert Drop(big, gone)[1..] == rest;
      } else {
        DropMembers(big[1..], keys);
      }
    }
  }

  lemma DropCoupled<K, V>(c1: Config, c2: Config, small: seq<Entry<K, V>>, big: seq<Entry<K, V>>, gone: set<K>,
                          keys: set<K>)
    requires Coupled(c1, c2, small, big, gone)
    ensures Coupled(c1, c2, Drop(small, keys), Drop(big, keys), gone)
  {
    DropKeepsLimits(c1, small, keys);
    DropKeepsLimits(c2, big, keys);
    DropCommutes(big, gone, keys);
    DropShrinks(big, gone, keys);
  }

  lemma FoundInBoth<K, V>(small: seq<Entry<K, V>>, big: seq<Entry<K, V>>, gone: set<K>, key: K)
    requires Distinct(big) && small == Drop(big, gone) && Lookup(small, key).Some?
    ensures Lookup(big, key) == Lookup(small, key) && key !in gone
  {
    DropMembers(big, gone);
    LookupIff(big, Lookup(small, key).value);
  }

  lemma {:induction false} TouchSize<K, V>(es: seq<Entry<K, V>>, key: K)
    requires Distinct(es)
    ensures |Touch(es, key)| == |es|
  {
    if Lookup(es, key).Some? {
      var e := Lookup(es, key).value;
      var i :| 0 <= i < |es| && es[i] == e;
      DropAt(es, i);
    }
  }

  /** A hit in both caches. */
  lemma TouchCoupled<K, V>(c1: Config, c2: Config, small: seq<Entry<K, V>>, big: seq<Entry<K, V>>, gone: set<K>, key: K)
    requires Coupled(c1, c2, small, big, gone) && Lookup(small, key).Some?
    ensures Coupled(c1, c2, Touch(small, key), Touch(big, key), gone)
  {
    FoundInBoth(small, big, gone, key);
    var e := Lookup(small, key).value;
    DropConcat(Drop(big, {key}), [e], gone);
    DropNothing([e], gone);
    DropCommutes(big, gone, {key});
    TouchKeepsLimits(c1, small, key);
    TouchKeepsLimits(c2, big, key);
    TouchSize(small, key);
    TouchSize(big, key);
  }

  /** A hit in the big cache only. */
  lemma TouchBigCoupled<K, V>(c1: Config, c2: Config, small: seq<Entry<K, V>>, big: seq<Entry<K, V>>, gone: set<K>,
                              key: K)
    requires Coupled(c1, c2, small, big, gone) && Lookup(small, key).None? && Lookup(big, key).Some?
    ensures Coupled(c1, c2, small, Touch(big, key), gone + {key})
  {
    var e := Lookup(big, key).value;
    DropConcat(Drop(big, {key}), [e], gone + {key});
    DropDrop(big, {key}, gone + {key});
    DropDrop(big, gone, {key});
    assert {key} + (gone + {key}) == gone + {key};
    DropNothing(small, {key});
    assert Drop([e], gone + {key}) == [];
    TouchKeepsLimits(c2, big, key);
    TouchSize(big, key);
  }

  lemma HitCoupled<K, V>(c1: Config, c2: Config, small: seq<Entry<K, V>>, big: seq<Entry<K, V>>, gone: set<K>, key: K)
    returns (gone': set<K>)
    requires Coupled(c1, c2, small, big, gone)
    ensures Coupled(c1, c2, Touch(small, key), Touch(big, key), gone')
    ensures Lookup(small, key).None? ==> Touch(small, key) == small
  {
    gone' := gone;
    if Lookup(small, key).Some? {
      TouchCoupled(c1, c2, small, big, gone, key);
    } else if Lookup(big, key).Some? {
      TouchBigCoupled(c1, c2, small, big, gone, key);
      gone' := gone + {key};
    }
  }

  /** Without a byte limit at most the least recent entry goes. */
  lemma MakeRoomPlain<K, V>(c: Config, es: seq<Entry<K, V>>, cost: nat)
    requires c.maxBytes == 0 && 0 < c.cap && |es| <= c.cap
    ensures MakeRoom(c, es, cost) == if |es| == c.cap then es[1..] else es
  {
    if |es| == c.cap {
      assert Fits(c, es[1..], cost);
    }
  }

  lemma EvictCoupled<K, V>(c1: Config, c2: Config, small: seq<Entry<K, V>>, big: seq<Entry<K, V>>, gone: set<K>,
                           cost: nat)
    returns (gone': set<K>)
    requires Coupled(c1, c2, small, big, gone) && c1.maxBytes == c2.maxBytes == 0 && 0 < c1.cap <= c2.cap
    ensures MakeRoom(c1, small, cost) == Drop(MakeRoom(c2, big, cost), gone')
    ensures forall k | k in gone' :: k in gone || exists e :: e in small && e.key == k
    ensures |MakeRoom(c2, big, cost)| - |MakeRoom(c1, small, cost)| <= c2.cap - c1.cap
  {
    MakeRoomPlain(c1, small, cost);
    MakeRoomPlain(c2, big, cost);
    gone' := gone;
    if |small| == c1.cap {
      if |big| == c2.cap {
        DropHead(big, gone);
        if big[0].key !in gone {
          assert small[1..] == Drop(big[1..], gone);
          return;
        }
        DropDrop(big[1..], gone, {small[0].key});
      } else {
        DropDrop(big, gone, {small[0].key});
      }
      DropFirst(small);
      gone' := gone + {small[0].key};
      assert small[0] in small;
    }
  }

  lemma PutCoupled<K, V>(c1: Config, c2: Config, s1: Lru<K, V>, s2: Lru<K, V>, gone: set<K>, e: Entry<K, V>)
    returns (gone': set<K>)
    requires Coupled(c1, c2, s1.entries, s2.entries, gone)
    requires c1.maxBytes == c2.maxBytes == 0 && 0 < c1.cap <= c2.cap
    ensures Coupled(c1, c2, Put(c1, s1, e).entries, Put(c2, s2, e).entries, gone')
  {
    var small, big := Drop(s1.entries, {e.key}), Drop(s2.entries, {e.key});
    DropCoupled(c1, c2, s1.entries, s2.entries, gone, {e.key});
    DropMembers(s1.entries, {e.key});
    DropMembers(s2.entries, {e.key});
    var kept := gone - {e.key};
    DropSame(big, gone, kept);
    gone' := EvictCoupled(c1, c2, small, big, kept, e.cost);
    PutIsEvictThenAppend(c1, s1, e);
    PutIsEvictThenAppend(c2, s2, e);
    DropConcat(MakeRoom(c2, big, e.cost), [e], gone');
    assert e.key !in gone';
    DropNothing([e], gone');
    PutKeepsLimits(c1, s1, e);
    PutKeepsLimits(c2, s2, e);
  }

  lemma TagCoupled<K, V>(c1: Config, c2: Config, small: seq<Entry<K, V>>, big: seq<Entry<K, V>>, gone: set<K>,
                         tag: string)
    requires Coupled(c1, c2, small, big, gone)
    ensures Coupled(c1, c2, Drop(small, TaggedKeys(small, tag)), Drop(big, TaggedKeys(big, tag)), gone)
  {
    DropMembers(big, gone);
    forall e | e in small ensures e.key in TaggedKeys(small, tag) <==> e.key in TaggedKeys(big, tag) {
      if e.key in TaggedKeys(big, tag) {
        var e' :| e' in big && tag in e'.value.tags && e'.key == e.key;
        assert e in big;
      }
    }
    DropSame(small, TaggedKeys(small, tag), TaggedKeys(big, tag));
    DropCoupled(c1, c2, small, big, gone, TaggedKeys(big, tag));
  }

  lemma StepCoupled<K, V>(c1: Config, c2: Config, s1: Lru<K, V>, s2: Lru<K, V>, gone: set<K>, op: Op<K, V>)
    returns (gone': set<K>)
    requires Coupled(c1, c2, s1.entries, s2.entries, gone)
    requires c1.maxBytes == c2.maxBytes == 0 && 0 < c1.cap <= c2.cap && c1.sample <= 1 && c2.sample <= 1
    ensures Coupled(c1, c2, Apply(c1, s1, op).entries, Apply(c2, s2, op).entries, gone')
  {
    gone' := gone;
    match op
    case GetOp(key) =>
      gone' := HitCoupled(c1, c2, s1.entries, s2.entries, gone, key);
    case PeekOp(_) =>
    case PeekFreshOp(key, now) =>
      if Lookup(s1.entries, key).Some? {
        FoundInBoth(s1.entries, s2.entries, gone, key);
      }
      if Lookup(s2.entries, key).Some? && IsFresh(Lookup(s2.entries, key).value.value, now) {
        gone' := HitCoupled(c1, c2, s1.entries, s2.entries, gone, key);
      }
    case SetOp(e) =>
      gone' := PutCoupled(c1, c2, s1, s2, gone, e);
    case DeleteOp(key) =>
      DropCoupled(c1, c2, s1.entries, s2.entries, gone, {key});
    case ClearOp =>
    case DeleteByTagOp(tag) =>
      TagCoupled(c1, c2, s1.entries, s2.entries, gone, tag);
  }

  lemma {:induction false} RunCoupled<K, V>(c1: Config, c2: Config, ops: seq<Op<K, V>>) returns (gone: set<K>)
    requires c1.maxBytes == c2.maxBytes == 0 && 0 < c1.cap <= c2.cap && c1.sample <= 1 && c2.sample <= 1
    ensures Coupled(c1, c2, Run(c1, ops).entries, Run(c2, ops).entries, gone)
  {
    gone := {};
    if ops != [] {
      var before := ops[..|ops| - 1];
      gone := RunCoupled(c1, c2, before);
      gone := StepCoupled(c1, c2, Run(c1, before), Run(c2, before), gone, ops[|ops| - 1]);
    }
  }

  /** On the same run of operations, with exact recency and no byte limit, a store of smaller
      capacity always holds a recency-order subsequence of what a larger one holds; so whatever
      hits in the smaller store hits in the larger one, with the same value. */
  lemma ExactInclusion<K(!new), V>(c1: Config, c2: Config, ops: seq<Op<K, V>>)
    requires c1.maxBytes == c2.maxBytes == 0 && 0 < c1.cap <= c2.cap && c1.sample <= 1 && c2.sample <= 1
    ensures Included(Run(c1, ops).entries, Run(c2, ops).entries)
    ensures forall key :: Lookup(Run(c1, ops).entries, key).Some? ==>
              Lookup(Run(c2, ops).entries, key) == Lookup(Run(c1, ops).entries, key)
  {
    var gone := RunCoupled(c1, c2, ops);
    forall key | Lookup(Run(c1, ops).entries, key).Some?
      ensures Lookup(Run(c2, ops).entries, key) == Lookup(Run(c1, ops).entries, key)
    {
      FoundInBoth(Run(c1, ops).entries, Run(c2, ops).entries, gone, key);
    }
  }

  // ---------- one slot, and equal stores ----------

  lemma EqualIncluded<K(!new), V>(es: seq<Entry<K, V>>)
    ensures Included(es, es)
  {
    DropNothing(es, {});
  }

  /** A store of one slot holds at most the key set last, which any other store also holds. */
  ghost predicate OneOf<K, V>(c1: Config, c2: Config, small: seq<Entry<K, V>>, big: seq<Entry<K, V>>) {
    WithinLimits(c1, small) && WithinLimits(c2, big) && forall e | e in small :: e in big
  }

  lemma TouchMembers<K, V>(es: seq<Entry<K, V>>, key: K)
    requires Distinct(es)
    ensures forall e :: e in Touch(es, key) <==> e in es
  {
    DropMembers(es, {key});
    if Lookup(es, key).Some? {
      forall e | e in es && e.key == key ensures e == Lookup(es, key).value {
        LookupIff(es, e);
      }
    }
  }

  lemma OneOfTag<K, V>(c1: Config, c2: Config, small: seq<Entry<K, V>>, big: seq<Entry<K, V>>, tag: string)
    requires OneOf(c1, c2, small, big)
    ensures OneOf(c1, c2, Drop(small, TaggedKeys(small, tag)), Drop(big, TaggedKeys(big, tag)))
  {
    DropKeepsLimits(c1, small, TaggedKeys(small, tag));
    DropKeepsLimits(c2, big, TaggedKeys(big, tag));
    DropMembers(small, TaggedKeys(small, tag));
    DropMembers(big, TaggedKeys(big, tag));
    forall e | e in Drop(small, TaggedKeys(small, tag)) ensures e in Drop(big, TaggedKeys(big, tag)) {
      if e.key in TaggedKeys(big, tag) {
        var other :| other in big && tag in other.value.tags && other.key == e.key;
        LookupIff(big, e);
        LookupIff(big, other);
      }
    }
  }

  lemma OneOfStep<K, V>(c1: Config, c2: Config, s1: Lru<K, V>, s2: Lru<K, V>, op: Op<K, V>)
    requires c1.cap == 1 && 0 < c2.cap && OneOf(c1, c2, s1.entries, s2.entries)
    ensures OneOf(c1, c2, Apply(c1, s1, op).entries, Apply(c2, s2, op).entries)
  {
    StepKeepsLimits(c1, s1, op);
    StepKeepsLimits(c2, s2, op);
    match op
    case GetOp(key) =>
      TouchMembers(s1.entries, key);
      TouchMembers(s2.entries, key);
    case PeekOp(_) =>
    case PeekFreshOp(key, _) =>
      TouchMembers(s1.entries, key);
      TouchMembers(s2.entries, key);
    case SetOp(e) =>
      PutKeepsLimits(c1, s1, e);
      PutKeepsLimits(c2, s2, e);
      var small := Put(c1, s1, e).entries;
      assert e in small && |small| == 1 && e in Put(c2, s2, e).entries;
    case DeleteOp(key) =>
      DropMembers(s1.entries, {key});
      DropMembers(s2.entries, {key});
    case ClearOp =>
    case DeleteByTagOp(tag) => OneOfTag(c1, c2, s1.entries, s2.entries, tag);
  }

  lemma {:induction false} OneOfRun<K, V>(c1: Config, c2: Config, ops: seq<Op<K, V>>)
    requires c1.cap == 1 && 0 < c2.cap
    ensures OneOf(c1, c2, Run(c1, ops).entries, Run(c2, ops).entries)
  {
    if ops != [] {
      var before := ops[..|ops| - 1];
      OneOfRun(c1, c2, before);
      OneOfStep(c1, c2, Run(c1, before), Run(c2, before), ops[|ops| - 1]);
    }
  }

  lemma OneIncluded<K(!new), V>(c1: Config, c2: Config, small: seq<Entry<K, V>>, big: seq<Entry<K, V>>)
    requires c1.cap == 1 && OneOf(c1, c2, small, big)
    ensures Included(small, big)
  {
    var gone := Keys(big) - Keys(small);
    var rest := Drop(big, gone);
    DropMembers(big, gone);
    DropDistinct(big, gone);
    forall e | e in rest ensures e in small {
      assert e.key in Keys(big) && e.key in Keys(small);
      var other :| other in small && other.key == e.key;
      LookupIff(big, e);
      LookupIff(big, other);
    }
    KeysCount(rest);
    if small == [] {
      assert Keys(rest) == {};
    } else {
      assert small[0] in small && small[0].key in Keys(small) && small[0] in rest;
      assert Keys(rest) == {small[0].key};
    }
  }

  // ---------- when inclusion holds ----------

  /** The sampling interval in effect. */
  function Interval(c: Config): nat {
    if c.sample == 0 then 1 else c.sample
  }

  /** Capacities and sampling intervals under which a store of `m1` slots is included in one of `m2`. */
  predicate Includes(m1: nat, s1: nat, m2: nat, s2: nat) {
    m1 <= m2 && (m1 == 1 || (s1 == 1 && s2 == 1) || (m1 == m2 && s1 == s2))
  }

  /** Without a byte limit, whatever the entries cost. */
  lemma PlainInclusion<K(!new), V>(c1: Config, c2: Config, ops: seq<Op<K, V>>)
    requires c1.maxBytes == c2.maxBytes == 0 && 0 < c1.cap && 0 < c2.cap
    requires Includes(c1.cap, Interval(c1), c2.cap, Interval(c2))
    ensures Included(Run(c1, ops).entries, Run(c2, ops).entries)
  {
    if c1.cap == 1 {
      OneOfRun(c1, c2, ops);
      OneIncluded(c1, c2, Run(c1, ops).entries, Run(c2, ops).entries);
    } else if Interval(c1) == 1 && Interval(c2) == 1 {
      ExactInclusion(c1, c2, ops);
    } else {
      assert c1 == c2;
      EqualIncluded(Run(c1, ops).entries);
    }
  }

  // ---------- when it does not ----------

  /** Keys, each set once to the same value. */
  function Items<K, V>(keys: seq<K>, value: Stored<V>, cost: nat): (es: seq<Entry<K, V>>)
    ensures |es| == |keys|
  {
    seq(|keys|, i requires 0 <= i < |keys| => Entry(keys[i], value, cost))
  }

  function Fill<K, V>(keys: seq<K>, value: Stored<V>, cost: nat): (ops: seq<Op<K, V>>)
    ensures |ops| == |keys|
  {
    seq(|keys|, i requires 0 <= i < |keys| => SetOp(Entry(keys[i], value, cost)))
  }

  function Gets<K, V>(key: K, n: nat): (ops: seq<Op<K, V>>)
    ensures |ops| == n
  {
    seq(n, _ => GetOp(key))
  }

  ghost predicate DistinctKeys<K>(keys: seq<K>) {
    forall i, j | 0 <= i < j < |keys| :: keys[i] != keys[j]
  }

  function Latest<K, V>(es: seq<Entry<K, V>>, n: nat): seq<Entry<K, V>> {
    if |es| <= n then es else es[|es| - n..]
  }

  lemma {:induction false} NotFound<K, V>(es: seq<Entry<K, V>>, key: K)
    requires forall e | e in es :: e.key != key
    ensures Lookup(es, key) == None
  {
    if es != [] {
      NotFound(es[1..], key);
    }
  }

  lemma FillStep<K, V>(c: Config, es: seq<Entry<K, V>>, e: Entry<K, V>)
    requires c.maxBytes == 0 && 0 < c.cap && forall x | x in es :: x.key != e.key
    ensures Put(c, Lru(Latest(es, c.cap), 0), e) == Lru(Latest(es + [e], c.cap), 0)
  {
    var kept := Latest(es, c.cap);
    NotFound(kept, e.key);
    MakeRoomPlain(c, kept, e.cost);
    hide Lookup, MakeRoom;
  }

  lemma FillNext<K, V>(keys: seq<K>, value: Stored<V>, cost: nat)
    requires keys != []
    ensures var n := |keys| - 1; var e := Entry(keys[n], value, cost); var op: Op<K, V> := SetOp(e);
            && Fill(keys, value, cost) == Fill(keys[..n], value, cost) + [op]
            && Items(keys, value, cost) == Items(keys[..n], value, cost) + [e]
            && forall x | x in Items(keys[..n], value, cost) :: x.key in keys[..n]
  {
  }

  /** Filling a store with distinct keys leaves the latest ones, in order. */
  lemma {:induction false} FillRun<K, V>(c: Config, keys: seq<K>, value: Stored<V>, cost: nat)
    requires c.maxBytes == 0 && 0 < c.cap && DistinctKeys(keys)
    ensures Run(c, Fill(keys, value, cost)) == Lru(Latest(Items(keys, value, cost), c.cap), 0)
  {
    if keys == [] {
      assert Fill(keys, value, cost) == [];
    } else {
      var n := |keys| - 1;
      var before, e := keys[..n], Entry(keys[n], value, cost);
      var op: Op<K, V> := SetOp(e);
      FillRun(c, before, value, cost);
      FillNext<K, V>(keys, value, cost);
      hide Run, Put, Latest, Fill, Items;
      Follow(c, Fill(before, value, cost), op);
      FillStep(c, Items(before, value, cost), e);
    }
  }

  lemma NoGets<K, V>(ops: seq<Op<K, V>>, key: K)
    ensures ops + Gets(key, 0) == ops
  {
  }

  lemma GetsNext<K, V>(c: Config, ops: seq<Op<K, V>>, key: K, n: nat)
    ensures Run(c, ops + Gets(key, n + 1)) == Get(c, Run(c, ops + Gets(key, n)), key)
  {
    var op: Op<K, V> := GetOp(key);
    assert ops + Gets(key, n + 1) == ops + Gets(key, n) + [op];
    Follow(c, ops + Gets(key, n), op);
  }

  lemma {:induction false} Misses<K, V>(c: Config, ops: seq<Op<K, V>>, key: K, n: nat)
    requires Lookup(Run(c, ops).entries, key) == None
    ensures Run(c, ops + Gets(key, n)) == Run(c, ops)
  {
    if n == 0 {
      NoGets(ops, key);
    } else {
      Misses(c, ops, key, n - 1);
      GetsNext(c, ops, key, n - 1);
    }
  }

  lemma CountUnsampled(c: Config, n: nat)
    requires 0 < n < Interval(c) < TWO_TO_32
    ensures CountHit(c, n - 1) == (false, n)
  {
  }

  lemma CountSampled(c: Config)
    requires Interval(c) < TWO_TO_32
    ensures 1 <= Interval(c) && CountHit(c, Interval(c) - 1).0
  {
    assert Interval(c) % Interval(c) == 0;
  }

  lemma OneHit<K, V>(c: Config, s: Lru<K, V>, key: K)
    requires Lookup(s.entries, key).Some?
    ensures Get(c, s, key).entries == (if CountHit(c, s.hits).0 then Touch(s.entries, key) else s.entries)
    ensures Get(c, s, key).hits == CountHit(c, s.hits).1
  {
    hide Lookup, Touch, CountHit;
  }

  /** Hits before the sampled one leave the order as it is. */
  lemma {:induction false} UnsampledHits<K, V>(c: Config, ops: seq<Op<K, V>>, key: K, n: nat)
    requires n < Interval(c) < TWO_TO_32 && Run(c, ops).hits == 0 && Lookup(Run(c, ops).entries, key).Some?
    ensures Run(c, ops + Gets(key, n)) == Lru(Run(c, ops).entries, n)
  {
    hide CountHit, Run, Lookup, Touch, Get, Gets, Interval;
    if n == 0 {
      NoGets(ops, key);
    } else {
      UnsampledHits(c, ops, key, n - 1);
      GetsNext(c, ops, key, n - 1);
      OneHit(c, Run(c, ops + Gets(key, n - 1)), key);
      CountUnsampled(c, n);
    }
  }

  lemma SampledHit<K, V>(c: Config, ops: seq<Op<K, V>>, key: K)
    requires Interval(c) < TWO_TO_32 && Run(c, ops).hits == 0 && Lookup(Run(c, ops).entries, key).Some?
    ensures Run(c, ops + Gets(key, Interval(c))).entries == Touch(Run(c, ops).entries, key)
  {
    hide CountHit, Run, Lookup, Touch, Get, Gets, Interval;
    CountSampled(c);
    var n := Interval(c) - 1;
    UnsampledHits(c, ops, key, n);
    GetsNext(c, ops, key, n);
    OneHit(c, Run(c, ops + Gets(key, n)), key);
  }

  /** Dropping keeps the order of what it leaves. */
  lemma {:induction false} DropKeepsOrder<K, V>(es: seq<Entry<K, V>>, gone: set<K>, i: nat, j: nat)
    returns (p: nat, q: nat)
    requires i < j < |Drop(es, gone)|
    ensures p < q < |es| && es[p] == Drop(es, gone)[i] && es[q] == Drop(es, gone)[j]
  {
    DropHead(es, gone);
    if es[0].key in gone {
      p, q := DropKeepsOrder(es[1..], gone, i, j);
      p, q := p + 1, q + 1;
    } else if i == 0 {
      DropMembers(es[1..], gone);
      assert Drop(es, gone)[j] == Drop(es[1..], gone)[j - 1];
      p, q := 0, 0;
      q :| 0 <= q < |es[1..]| && es[1..][q] == Drop(es, gone)[j];
      q := q + 1;
    } else {
      p, q := DropKeepsOrder(es[1..], gone, i - 1, j - 1);
      p, q := p + 1, q + 1;
    }
  }

  lemma OrderKept<K, V>(big: seq<Entry<K, V>>, gone: set<K>, i: nat, j: nat, p: nat, q: nat)
    requires Distinct(big) && i < j < |Drop(big, gone)| && p < |big| && q < |big|
    requires Drop(big, gone)[i] == big[p] && Drop(big, gone)[j] == big[q]
    ensures p < q
  {
    var p', q' := DropKeepsOrder(big, gone, i, j);
    assert big[p'].key == big[p].key && big[q'].key == big[q].key;
  }

  lemma OtherOrder<K(!new), V>(small: seq<Entry<K, V>>, big: seq<Entry<K, V>>, i: nat, j: nat, p: nat, q: nat)
    requires Distinct(big) && i < j < |small| && p < q < |big|
    requires small[i] == big[q] && small[j] == big[p]
    ensures !Included(small, big)
  {
    forall gone ensures small != Drop(big, gone) {
      if small == Drop(big, gone) {
        OrderKept(big, gone, i, j, q, p);
      }
    }
  }

  lemma LongerNotIncluded<K(!new), V>(small: seq<Entry<K, V>>, big: seq<Entry<K, V>>)
    requires |big| < |small|
    ensures !Included(small, big)
  {
    forall gone ensures small != Drop(big, gone) {
      DropMembers(big, gone);
    }
  }

  lemma ItemsDistinct<K, V>(keys: seq<K>, value: Stored<V>, cost: nat)
    requires DistinctKeys(keys)
    ensures Distinct(Items(keys, value, cost))
  {
  }

  /** Touching one of several entries. */
  lemma TouchAt<K, V>(es: seq<Entry<K, V>>, i: nat)
    requires Distinct(es) && i < |es|
    ensures Lookup(es, es[i].key).Some? && Touch(es, es[i].key) == es[..i] + es[i + 1..] + [es[i]]
  {
    LookupAt(es, i);
    DropAt(es, i);
  }

  lemma TurnedDistinct<K, V>(es: seq<Entry<K, V>>, i: nat)
    requires Distinct(es) && i < |es|
    ensures Distinct(es[..i] + es[i + 1..] + [es[i]])
  {
  }

  /** Neither of an order and the same with its first entry moved to the end includes the other. */
  lemma TurnedApart<K(!new), V>(es: seq<Entry<K, V>>)
    requires Distinct(es) && 2 <= |es|
    ensures var turned := es[..0] + es[1..] + [es[0]]; !Included(turned, es) && !Included(es, turned)
  {
    TurnedDistinct(es, 0);
    var turned := es[..0] + es[1..] + [es[0]];
    hide Distinct, Included;
    OtherOrder(turned, es, 0, |es| - 1, 0, 1);
    OtherOrder(es, turned, 0, 1, 0, |es| - 1);
  }

  lemma FillFound<K, V>(c: Config, keys: seq<K>, value: Stored<V>, cost: nat, i: nat)
    requires c.maxBytes == 0 && 0 < |keys| <= c.cap && DistinctKeys(keys) && i < |keys|
    ensures var es: seq<Entry<K, V>>, fill: seq<Op<K, V>> := Items(keys, value, cost), Fill(keys, value, cost);
            Run(c, fill) == Lru(es, 0) && Distinct(es) && es[i].key == keys[i]
            && Lookup(es, keys[i]).Some? && Touch(es, keys[i]) == es[..i] + es[i + 1..] + [es[i]]
  {
    FillRun(c, keys, value, cost);
    var es: seq<Entry<K, V>> := Items(keys, value, cost);
    ItemsDistinct(keys, value, cost);
    TouchAt(es, i);
  }

  /** Hits on the oldest of some keys until the shorter sampling interval is over: the store that has
      it refreshes recency, the other does not. */
  lemma FirstToSample<K, V>(c1: Config, c2: Config, keys: seq<K>, value: Stored<V>, cost: nat)
    requires c1.maxBytes == c2.maxBytes == 0 && 2 <= |keys| <= c1.cap && |keys| <= c2.cap && DistinctKeys(keys)
    requires Interval(c1) < Interval(c2) < TWO_TO_32
    ensures var es: seq<Entry<K, V>>, ops: seq<Op<K, V>> :=
              Items(keys, value, cost), Fill(keys, value, cost) + Gets(keys[0], Interval(c1));
            Run(c1, ops).entries == es[..0] + es[1..] + [es[0]] && Run(c2, ops).entries == es
  {
    var fill: seq<Op<K, V>> := Fill(keys, value, cost);
    FillFound(c1, keys, value, cost, 0);
    FillFound(c2, keys, value, cost, 0);
    hide Run, Touch, Lookup, Distinct, Fill, Items, Gets;
    SampledHit(c1, fill, keys[0]);
    UnsampledHits(c2, fill, keys[0], Interval(c1));
  }

  lemma FillCost<K, V>(keys: seq<K>, value: Stored<V>, cost: nat, gets: seq<Op<K, V>>)
    requires forall i | 0 <= i < |gets| :: gets[i].GetOp?
    ensures SetsCost(Fill(keys, value, cost) + gets, cost)
  {
  }

  lemma DifferentIntervals<K(!new), V>(c1: Config, c2: Config, keys: seq<K>, value: Stored<V>, cost: nat)
    returns (ops: seq<Op<K, V>>)
    requires c1.maxBytes == c2.maxBytes == 0 && 2 <= |keys| <= c1.cap && |keys| <= c2.cap && DistinctKeys(keys)
    requires Interval(c1) != Interval(c2) && Interval(c1) < TWO_TO_32 && Interval(c2) < TWO_TO_32
    ensures SetsCost(ops, cost) && !Included(Run(c1, ops).entries, Run(c2, ops).entries)
  {
    var n := if Interval(c1) < Interval(c2) then Interval(c1) else Interval(c2);
    ops := Fill(keys, value, cost) + Gets(keys[0], n);
    FillCost<K, V>(keys, value, cost, Gets(keys[0], n));
    ItemsDistinct(keys, value, cost);
    TurnedApart<K, V>(Items(keys, value, cost));
    hide Run, Distinct, Included, Fill, Items, Gets, SetsCost;
    if Interval(c1) < Interval(c2) {
      FirstToSample(c1, c2, keys, value, cost);
    } else {
      FirstToSample(c2, c1, keys, value, cost);
    }
  }

  /** The smaller store after missing its lost first key and then hitting its second: unchanged. */
  lemma SmallAfterHits<K, V>(c: Config, keys: seq<K>, value: Stored<V>, cost: nat)
    requires c.maxBytes == 0 && 2 <= c.cap && |keys| == c.cap + 1 && DistinctKeys(keys)
    requires 1 < Interval(c) < TWO_TO_32
    ensures Run(c, Fill(keys, value, cost) + Gets(keys[0], Interval(c) - 1) + [GetOp(keys[1])]).entries
            == Items<K, V>(keys, value, cost)[1..]
  {
    var es: seq<Entry<K, V>>, fill: seq<Op<K, V>> := Items(keys, value, cost), Fill(keys, value, cost);
    FillRun(c, keys, value, cost);
    NotFound(es[1..], keys[0]);
    hide Run, Lookup, Touch;
    Misses(c, fill, keys[0], Interval(c) - 1);
    Follow(c, fill + Gets(keys[0], Interval(c) - 1), GetOp(keys[1]));
    CountUnsampled(c, 1);
    hide CountHit;
  }

  /** The larger store, whose hit counter is one short of sampling: its second key moves. */
  lemma BigAfterHits<K, V>(c: Config, keys: seq<K>, value: Stored<V>, cost: nat)
    requires c.maxBytes == 0 && 2 <= |keys| <= c.cap && DistinctKeys(keys)
    requires 1 < Interval(c) < TWO_TO_32
    ensures var es: seq<Entry<K, V>> := Items(keys, value, cost);
            Run(c, Fill(keys, value, cost) + Gets(keys[0], Interval(c) - 1) + [GetOp(keys[1])]).entries
            == es[..1] + es[2..] + [es[1]]
  {
    var fill: seq<Op<K, V>> := Fill(keys, value, cost);
    FillFound(c, keys, value, cost, 0);
    FillFound(c, keys, value, cost, 1);
    hide Run, Lookup, Touch, Distinct;
    UnsampledHits(c, fill, keys[0], Interval(c) - 1);
    Follow(c, fill + Gets(keys[0], Interval(c) - 1), GetOp(keys[1]));
    CountSampled(c);
    hide CountHit;
  }

  /** The same sampling interval, but the larger store has had more hits. */
  lemma DifferentHits<K(!new), V>(c1: Config, c2: Config, keys: seq<K>, value: Stored<V>, cost: nat)
    returns (ops: seq<Op<K, V>>)
    requires c1.maxBytes == c2.maxBytes == 0 && 2 <= c1.cap && |keys| == c1.cap + 1 <= c2.cap && DistinctKeys(keys)
    requires 1 < Interval(c1) == Interval(c2) < TWO_TO_32
    ensures SetsCost(ops, cost) && !Included(Run(c1, ops).entries, Run(c2, ops).entries)
  {
    var es: seq<Entry<K, V>> := Items(keys, value, cost);
    ops := Fill(keys, value, cost) + Gets(keys[0], Interval(c1) - 1) + [GetOp(keys[1])];
    SmallAfterHits(c1, keys, value, cost);
    BigAfterHits(c2, keys, value, cost);
    ItemsDistinct(keys, value, cost);
    TurnedDistinct(es, 1);
    hide Run, Distinct, Included;
    OtherOrder(es[1..], es[..1] + es[2..] + [es[1]], 0, 1, 1, |es| - 1);
  }

  /** A run without inclusion, whenever the condition fails. */
  lemma NotIncluded<K(!new), V>(c1: Config, c2: Config, keys: seq<K>, value: Stored<V>, cost: nat)
    returns (ops: seq<Op<K, V>>)
    requires c1.maxBytes == c2.maxBytes == 0 && 0 < c1.cap < |keys| && 0 < c2.cap && DistinctKeys(keys)
    requires Interval(c1) < TWO_TO_32 && Interval(c2) < TWO_TO_32
    requires !Includes(c1.cap, Interval(c1), c2.cap, Interval(c2))
    ensures SetsCost(ops, cost) && !Included(Run(c1, ops).entries, Run(c2, ops).entries)
  {
    if c2.cap < c1.cap {
      ops := Fill(keys[..c1.cap], value, cost);
      FillRun(c1, keys[..c1.cap], value, cost);
      FillRun(c2, keys[..c1.cap], value, cost);
      LongerNotIncluded(Run(c1, ops).entries, Run(c2, ops).entries);
    } else if Interval(c1) != Interval(c2) {
      ops := DifferentIntervals(c1, c2, keys[..c1.cap], value, cost);
    } else {
      ops := DifferentHits(c1, c2, keys[..c1.cap + 1], value, cost);
    }
  }

  // ---------- the exact condition ----------

  /** When every entry costs the same, a store is included in another on every run exactly if its
      effective capacity is no larger and, besides, it has a single slot, or both refresh recency on
      every hit, or the two behave alike. `keys` are enough different keys to tell. */
  lemma InclusionIff<K(!new), V>(c1: Config, c2: Config, cost: nat, keys: seq<K>, value: Stored<V>)
    requires 0 < c1.cap && 0 < c2.cap && 0 < cost && Interval(c1) < TWO_TO_32 && Interval(c2) < TWO_TO_32
    requires DistinctKeys(keys) && EffectiveCap(c1, cost) < |keys|
    ensures Includes(EffectiveCap(c1, cost), Interval(c1), EffectiveCap(c2, cost), Interval(c2)) <==>
              forall ops: seq<Op<K, V>> | SetsCost(ops, cost) ::
                Included(Run(c1, ops).entries, Run(c2, ops).entries)
  {
    var p1 := Config(EffectiveCap(c1, cost), 0, c1.sample);
    var p2 := Config(EffectiveCap(c2, cost), 0, c2.sample);
    if Includes(p1.cap, Interval(c1), p2.cap, Interval(c2)) {
      forall ops: seq<Op<K, V>> | SetsCost(ops, cost)
        ensures Included(Run(c1, ops).entries, Run(c2, ops).entries)
      {
        ByteLimitIsItemLimit(c1, ops, cost);
        ByteLimitIsItemLimit(c2, ops, cost);
        PlainInclusion(p1, p2, ops);
      }
    } else {
      var ops: seq<Op<K, V>> := NotIncluded(p1, p2, keys, value, cost);
      ByteLimitIsItemLimit(c1, ops, cost);
      ByteLimitIsItemLimit(c2, ops, cost);
    }
  }

  /** The same without a byte limit, where the entries may cost what they will. */
  lemma PlainInclusionIff<K(!new), V>(c1: Config, c2: Config, keys: seq<K>, value: Stored<V>)
    requires 0 < c1.cap && 0 < c2.cap && c1.maxBytes == c2.maxBytes == 0
    requires Interval(c1) < TWO_TO_32 && Interval(c2) < TWO_TO_32
    requires DistinctKeys(keys) && c1.cap < |keys|
    ensures Includes(c1.cap, Interval(c1), c2.cap, Interval(c2)) <==>
              forall ops: seq<Op<K, V>> :: Included(Run(c1, ops).entries, Run(c2, ops).entries)
  {
    if Includes(c1.cap, Interval(c1), c2.cap, Interval(c2)) {
      forall ops: seq<Op<K, V>> ensures Included(Run(c1, ops).entries, Run(c2, ops).entries) {
        PlainInclusion(c1, c2, ops);
      }
    } else {
      var ops: seq<Op<K, V>> := NotIncluded(c1, c2, keys, value, 1);
    }
  }
}
