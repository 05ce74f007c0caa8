/** Properties of every run of the sharded cache. `ShardedStore` has them because each of its
    methods is proved equal to the matching step of `ShardedSpec`. */
module ShardedTheorems {
  import opened Envelope
  import opened Words
  import opened LruSpec
  import opened LruTheorems
  import opened Hashing
  import opened PairHashing
  import opened Sets
  import opened Sharding
  import Spec = ShardedSpec

  /** Every shard can hold an entry. */
  predicate Usable(cs: seq<Config>) {
    IsPow2(|cs|) && forall i | 0 <= i < |cs| :: 0 < cs[i].cap
  }

  /** Each shard is within its limits and holds only keys that route to it. */
  ghost predicate ShardOk<V>(c: Config, es: seq<Entry<Key, V>>, i: nat, shards: nat)
    requires 0 < shards
  {
    WithinLimits(c, es) && forall e | e in es :: Routable(e.key) && ShardIndex(e.key, shards) == i
  }

  ghost predicate Routed<V>(cs: seq<Config>, view: seq<Lru<Key, V>>) {
    |cs| == |view| && forall i | 0 <= i < |view| :: ShardOk(cs[i], view[i].entries, i, |view|)
  }

  lemma ShardStep<V>(c: Config, s: Lru<Key, V>, op: Op<Key, V>, i: nat, shards: nat)
    requires 0 < shards && 0 < c.cap && ShardOk(c, s.entries, i, shards)
    requires Spec.RoutableOp(op) && (op.SetOp? ==> ShardIndex(op.entry.key, shards) == i)
    ensures ShardOk(c, Apply(c, s, op).entries, i, shards)
  {
    StepKeepsLimits(c, s, op);
    StepEntries(c, s, op);
  }

  lemma StepRouted<V>(cs: seq<Config>, view: seq<Lru<Key, V>>, op: Op<Key, V>)
    requires Usable(cs) && Routed(cs, view) && Spec.RoutableOp(op)
    ensures Routed(cs, Spec.Apply(cs, view, op))
  {
    var view' := Spec.Apply(cs, view, op);
    forall i | 0 <= i < |view| ensures ShardOk(cs[i], view'[i].entries, i, |view'|) {
      if view'[i] != view[i] {
        ShardStep(cs[i], view[i], op, i, |view|);
      }
    }
  }

  /** Every key lives only in the shard its hash selects, on every run. */
  lemma {:induction false} RunRouted<V>(cs: seq<Config>, ops: seq<Op<Key, V>>)
    requires Usable(cs) && Spec.RoutableRun(ops)
    ensures Routed(cs, Spec.Run(cs, ops))
  {
    if ops != [] {
      RunRouted(cs, ops[..|ops| - 1]);
      StepRouted(cs, Spec.Run(cs, ops[..|ops| - 1]), ops[|ops| - 1]);
    }
  }

  // ---------- independent caches ----------

  /** Does the operation reach shard i? One on a key reaches the shard of the key, any other every shard. */
  predicate Reached<V>(op: Op<Key, V>, i: nat, shards: nat)
    requires Spec.RoutableOp(op) && 0 < shards
  {
    match Spec.OpKey(op)
    case Some(k) => ShardIndex(k, shards) == i
    case None => true
  }

  /** The operations of a run that reach shard i. */
  ghost function ShardOps<V>(ops: seq<Op<Key, V>>, i: nat, shards: nat): seq<Op<Key, V>>
    requires Spec.RoutableRun(ops) && 0 < shards
  {
    if ops == [] then []
    else
      var before, op := ops[..|ops| - 1], ops[|ops| - 1];
      if Reached(op, i, shards) then ShardOps(before, i, shards) + [op] else ShardOps(before, i, shards)
  }

  lemma ShardApply<V>(cs: seq<Config>, view: seq<Lru<Key, V>>, op: Op<Key, V>, i: nat)
    requires |cs| == |view| && IsPow2(|view|) && Spec.RoutableOp(op) && i < |view|
    ensures Spec.Apply(cs, view, op)[i] == if Reached(op, i, |view|) then Apply(cs[i], view[i], op) else view[i]
  {
    hide ShardIndex, Apply;
  }

  lemma {:induction false} ShardIsLru<V>(cs: seq<Config>, ops: seq<Op<Key, V>>, i: nat)
    requires IsPow2(|cs|) && Spec.RoutableRun(ops) && i < |cs|
    ensures Spec.Run(cs, ops)[i] == Run(cs[i], ShardOps(ops, i, |cs|))
  {
    if ops != [] {
      var before, op := ops[..|ops| - 1], ops[|ops| - 1];
      ShardIsLru(cs, before, i);
      ShardApply(cs, Spec.Run(cs, before), op, i);
      Follow(cs[i], ShardOps(before, i, |cs|), op);
      hide Apply, Spec.Apply, Run, Reached, IsPow2, Spec.RoutableOp;
    }
  }

  /** On every run each shard is the plain LRU cache that meets the operations on its own keys, and those
      on all keys, with its share of the limits and with the sampling interval of the whole store. */
  lemma {:induction false} ShardsAreLrus<V>(capacity: nat, maxBytes: nat, sample: nat, shards: nat,
                                            ops: seq<Op<Key, V>>, i: nat)
    requires IsPow2(shards) && Spec.RoutableRun(ops) && i < shards
    ensures Spec.Run(Spec.Configs(capacity, maxBytes, sample, shards), ops)[i] ==
            Run(Config(Share(capacity, shards, i) % TWO_TO_32, Share(maxBytes, shards, i), sample),
                ShardOps(ops, i, shards))
  {
    hide Share;
    ShardIsLru(Spec.Configs(capacity, maxBytes, sample, shards), ops, i);
  }

  // ---------- one map ----------

  /** The value of a key in the whole store. */
  ghost function Find<V>(view: seq<Lru<Key, V>>, key: Key): Option<Stored<V>>
    requires IsPow2(|view|) && Routable(key)
  {
    ShardIndexInRange(key, |view|);
    Value(view[ShardIndex(key, |view|)], key)
  }

  /** The sharded store is one map that may forget: the same steps as an unsharded store allows;
      and a set never touches keys of other shards. */
  lemma RefinesOneMap<V>(cs: seq<Config>, ops: seq<Op<Key, V>>, op: Op<Key, V>, key: Key)
    requires Usable(cs) && Spec.RoutableRun(ops) && Spec.RoutableOp(op) && Routable(key)
    ensures var view := Spec.Run(cs, ops); var view' := Spec.Apply(cs, view, op);
            && MapStep(op, key, Find(view, key), Find(view', key))
            && (op.SetOp? && ShardIndex(key, |view|) != ShardIndex(op.entry.key, |view|) ==>
                  Find(view', key) == Find(view, key))
  {
    RunRouted(cs, ops);
    var view := Spec.Run(cs, ops);
    ShardIndexInRange(key, |view|);
    var i := ShardIndex(key, |view|);
    assert ShardOk(cs[i], view[i].entries, i, |view|);
    RefinesLossyMap(cs[i], view[i], op, key);
  }

  // ---------- number of entries ----------

  ghost function AllKeys<V>(view: seq<Lru<Key, V>>): set<Key> {
    if view == [] then {} else AllKeys(view[..|view| - 1]) + Keys(view[|view| - 1].entries)
  }

  /** Keys of the first n shards route to one of them. */
  lemma {:induction false} KeysRouted<V>(cs: seq<Config>, view: seq<Lru<Key, V>>, n: nat)
    requires Routed(cs, view) && n <= |view|
    ensures forall k | k in AllKeys(view[..n]) :: Routable(k) && ShardIndex(k, |view|) < n
  {
    if n != 0 {
      KeysRouted(cs, view, n - 1);
      assert view[..n][..n - 1] == view[..n - 1];
      assert ShardOk(cs[n - 1], view[n - 1].entries, n - 1, |view|);
    }
  }

  lemma {:induction false} LenUpTo<V>(cs: seq<Config>, view: seq<Lru<Key, V>>, n: nat)
    requires Routed(cs, view) && n <= |view|
    ensures Spec.Len(view[..n]) == |AllKeys(view[..n])|
  {
    if n != 0 {
      LenUpTo(cs, view, n - 1);
      Spec.TotalsNext(view, n - 1);
      ShardKeysApart(cs, view, n - 1);
      AllKeysNext(view, n - 1);
      hide Routed, AllKeys, Spec.Len, Keys;
      UnionSize(AllKeys(view[..n - 1]), Keys(view[n - 1].entries));
    }
  }

  lemma AllKeysNext<V>(view: seq<Lru<Key, V>>, i: nat)
    requires i < |view|
    ensures AllKeys(view[..i + 1]) == AllKeys(view[..i]) + Keys(view[i].entries)
  {
    assert view[..i + 1][..i] == view[..i];
  }

  /** The keys of a shard are distinct from one another and from those of the shards before it. */
  lemma ShardKeysApart<V>(cs: seq<Config>, view: seq<Lru<Key, V>>, i: nat)
    requires Routed(cs, view) && i < |view|
    ensures |Keys(view[i].entries)| == |view[i].entries|
    ensures AllKeys(view[..i]) !! Keys(view[i].entries)
  {
    KeysRouted(cs, view, i);
    assert ShardOk(cs[i], view[i].entries, i, |view|);
    KeysCount(view[i].entries);
  }

  lemma {:induction false} AllKeysAreFound<V>(cs: seq<Config>, view: seq<Lru<Key, V>>, n: nat, key: Key)
    requires Routed(cs, view) && IsPow2(|view|) && n <= |view| && Routable(key)
    ensures key in AllKeys(view[..n]) <==> ShardIndex(key, |view|) < n && Find(view, key).Some?
  {
    ShardIndexInRange(key, |view|);
    if n != 0 {
      AllKeysAreFound(cs, view, n - 1, key);
      assert view[..n][..n - 1] == view[..n - 1];
      assert ShardOk(cs[n - 1], view[n - 1].entries, n - 1, |view|);
      var es := view[n - 1].entries;
      if key in Keys(es) {
        var e :| e in es && e.key == key;
        LookupIff(es, e);
      }
    }
  }

  /** `Len` is the number of keys that the store as a whole holds. */
  lemma LenCountsKeys<V>(cs: seq<Config>, ops: seq<Op<Key, V>>)
    requires Usable(cs) && Spec.RoutableRun(ops)
    ensures var view := Spec.Run(cs, ops);
            && Spec.Len(view) == |AllKeys(view)|
            && forall k | Routable(k) :: k in AllKeys(view) <==> Find(view, k).Some?
  {
    RunRouted(cs, ops);
    var view := Spec.Run(cs, ops);
    assert view[..|view|] == view;
    LenUpTo(cs, view, |view|);
    forall k | Routable(k) ensures k in AllKeys(view) <==> Find(view, k).Some? {
      AllKeysAreFound(cs, view, |view|, k);
      ShardIndexInRange(k, |view|);
    }
  }

  lemma ShardLen<V>(capacity: nat, maxBytes: nat, sample: nat, view: seq<Lru<Key, V>>, i: nat)
    requires i < |view| && Routed(Spec.Configs(capacity, maxBytes, sample, |view|), view)
    ensures |view[i].entries| <= Share(capacity, |view|, i)
  {
    hide Share;
    assert ShardOk(Spec.Configs(capacity, maxBytes, sample, |view|)[i], view[i].entries, i, |view|);
  }

  lemma {:induction false} LenBelowShares<V>(capacity: nat, maxBytes: nat, sample: nat, view: seq<Lru<Key, V>>, n: nat)
    requires 0 < |view| && Routed(Spec.Configs(capacity, maxBytes, sample, |view|), view) && n <= |view|
    ensures Spec.Len(view[..n]) <= SumShares(capacity, |view|, n)
  {
    if n != 0 {
      LenBelowShares(capacity, maxBytes, sample, view, n - 1);
      Spec.TotalsNext(view, n - 1);
      ShardLen(capacity, maxBytes, sample, view, n - 1);
      hide Routed, Share, Spec.Len;
    }
  }

  /** For a capacity below 2^32 no shard is without slots. */
  lemma SharesUsable(capacity: nat, maxBytes: nat, sample: nat, shards: nat)
    requires IsPow2(shards) && shards <= capacity < TWO_TO_32
    ensures Usable(Spec.Configs(capacity, maxBytes, sample, shards))
  {
    SharesAddUp(capacity, shards);
    hide Share, SumShares;
    forall i | 0 <= i < shards ensures Share(capacity, shards, i) <= capacity {
      ShareAtMost(capacity, shards, i);
    }
  }

  lemma {:induction false} Grows(q: nat, n: nat)
    requires 0 < n
    ensures q <= q * n
  {
    if n != 1 {
      Grows(q, n - 1);
      assert q * n == q * (n - 1) + q;
    }
  }

  lemma ShareAtMost(total: nat, shards: nat, i: nat)
    requires i < shards
    ensures Share(total, shards, i) <= total
  {
    var q, r := total / shards, total % shards;
    Grows(q, shards);
    assert total == q * shards + r;
  }

  /** The whole store never holds more entries than its capacity. */
  lemma LenWithinCapacity<V>(capacity: nat, maxBytes: nat, sample: nat, shards: nat, ops: seq<Op<Key, V>>)
    requires Usable(Spec.Configs(capacity, maxBytes, sample, shards)) && Spec.RoutableRun(ops)
    ensures Spec.Len(Spec.Run(Spec.Configs(capacity, maxBytes, sample, shards), ops)) <= capacity
  {
    var cs := Spec.Configs(capacity, maxBytes, sample, shards);
    RunRouted(cs, ops);
    var view := Spec.Run(cs, ops);
    assert view[..|view|] == view;
    LenBelowShares(capacity, maxBytes, sample, view, |view|);
    SharesAddUp(capacity, shards);
  }

  // ---------- bytes ----------

  ghost predicate AllShardsCost<V>(view: seq<Lru<Key, V>>, cost: nat) {
    forall i | 0 <= i < |view| :: AllCost(view[i].entries, cost)
  }

  lemma {:induction false} RunCost<V>(cs: seq<Config>, ops: seq<Op<Key, V>>, cost: nat)
    requires Usable(cs) && Spec.RoutableRun(ops) && SetsCost(ops, cost)
    ensures AllShardsCost(Spec.Run(cs, ops), cost)
  {
    if ops != [] {
      var before, op := ops[..|ops| - 1], ops[|ops| - 1];
      RunCost(cs, before, cost);
      RunRouted(cs, before);
      var view, view' := Spec.Run(cs, before), Spec.Run(cs, ops);
      forall i | 0 <= i < |view'| ensures AllCost(view'[i].entries, cost) {
        assert AllCost(view[i].entries, cost) && ShardOk(cs[i], view[i].entries, i, |view|);
        StepEntries(cs[i], view[i], op);
      }
    }
  }

  /** A shard whose byte share covers one entry stays within its share. */
  lemma ShardWithinShare<V>(c: Config, es: seq<Entry<Key, V>>, cost: nat)
    requires WithinLimits(c, es) && AllCost(es, cost) && 0 < cost <= c.maxBytes
    ensures Bytes(es) <= c.maxBytes
  {
    BytesOfConstant(es, cost);
  }

  lemma ShardBytes<V>(capacity: nat, maxBytes: nat, sample: nat, view: seq<Lru<Key, V>>, cost: nat, i: nat)
    requires i < |view| && Routed(Spec.Configs(capacity, maxBytes, sample, |view|), view)
    requires AllShardsCost(view, cost) && 0 < cost && cost * |view| <= maxBytes
    ensures Bytes(view[i].entries) <= Share(maxBytes, |view|, i)
  {
    var c := Spec.Configs(capacity, maxBytes, sample, |view|)[i];
    assert ShardOk(c, view[i].entries, i, |view|) && AllCost(view[i].entries, cost);
    DivisionBound(cost, |view|, maxBytes);
    ShardWithinShare(c, view[i].entries, cost);
  }

  lemma {:induction false} BytesBelowShares<V>(maxBytes: nat, view: seq<Lru<Key, V>>, n: nat)
    requires n <= |view| && forall i | 0 <= i < |view| :: Bytes(view[i].entries) <= Share(maxBytes, |view|, i)
    ensures Spec.UsedBytes(view[..n]) <= SumShares(maxBytes, |view|, n)
  {
    if n != 0 {
      BytesBelowShares(maxBytes, view, n - 1);
      Spec.TotalsNext(view, n - 1);
      hide Share, Spec.UsedBytes, Bytes;
    }
  }

  /** When every entry costs the same and the limit covers one entry per shard, the limit is kept on
      every run. */
  lemma BytesWithinLimit<V>(capacity: nat, maxBytes: nat, sample: nat, shards: nat, cost: nat, ops: seq<Op<Key, V>>)
    requires Usable(Spec.Configs(capacity, maxBytes, sample, shards)) && 0 < cost && shards * cost <= maxBytes
    requires Spec.RoutableRun(ops) && SetsCost(ops, cost)
    ensures Spec.UsedBytes(Spec.Run(Spec.Configs(capacity, maxBytes, sample, shards), ops)) <= maxBytes
  {
    var cs := Spec.Configs(capacity, maxBytes, sample, shards);
    RunRouted(cs, ops);
    RunCost(cs, ops, cost);
    var view := Spec.Run(cs, ops);
    assert view[..|view|] == view;
    forall i | 0 <= i < |view| ensures Bytes(view[i].entries) <= Share(maxBytes, |view|, i) {
      ShardBytes(capacity, maxBytes, sample, view, cost, i);
    }
    hide Share, SumShares;
    BytesBelowShares(maxBytes, view, |view|);
    SharesAddUp(maxBytes, shards);
  }

  /** All keys of the run have the type of `kind`. */
  ghost predicate Keyed<V>(ops: seq<Op<Key, V>>, kind: Key) {
    forall i | 0 <= i < |ops| && Spec.OpKey(ops[i]).Some? :: OfType(kind, Spec.OpKey(ops[i]).value)
  }

  ghost predicate Reaches(kind: Key, i: nat, shards: nat)
    requires 0 < shards
  {
    exists k :: OfType(kind, k) && Routable(k) && ShardIndex(k, shards) == i
  }

  /** Every shard is that of some key of the type. */
  ghost predicate ReachesAll(kind: Key, shards: nat) {
    forall i: nat | i < shards :: Reaches(kind, i, shards)
  }

  /** 64-bit integers reach every shard. */
  lemma WideReachesAll(kind: Key, shards: nat)
    requires Wide(kind) && IsPow2(shards) && shards <= Pow2(48)
    ensures ReachesAll(kind, shards)
  {
    forall i: nat | i < shards ensures Reaches(kind, i, shards) {
      var u := ShardReached(i, shards);
      WideFits(kind, ToWord(u));
      var k := KeyOf(kind, ToWord(u));
      SameRoute(k, u, shards);
    }
  }

  lemma SameRoute(k: Key, u: Key, shards: nat)
    requires IntegerKey(k) && IntegerKey(u) && ToWord(k) == ToWord(u) && 0 < shards
    ensures ShardIndex(k, shards) == ShardIndex(u, shards)
  {
    assert Comparable(OFFSET, k) == Comparable(OFFSET, u);
  }

  /** The first n shards hold one entry each, the others none. */
  ghost predicate OneEach<V>(view: seq<Lru<Key, V>>, n: nat, cost: nat) {
    forall i | 0 <= i < |view| ::
      if i < n then |view[i].entries| == 1 && view[i].entries[0].cost == cost else view[i].entries == []
  }

  /** A run that puts one entry into each of the first n shards, with keys of one type. */
  lemma {:induction false} FillShards<V>(cs: seq<Config>, n: nat, cost: nat, value: Stored<V>, kind: Key)
    returns (ops: seq<Op<Key, V>>)
    requires Usable(cs) && n <= |cs| && ReachesAll(kind, |cs|)
    ensures Spec.RoutableRun(ops) && SetsCost(ops, cost) && Keyed(ops, kind)
    ensures OneEach(Spec.Run(cs, ops), n, cost)
  {
    ops := [];
    if n != 0 {
      var before := FillShards(cs, n - 1, cost, value, kind);
      var key := KeyOfShard(kind, n - 1, |cs|);
      var op: Op<Key, V> := SetOp(Entry(key, value, cost));
      ops := before + [op];
      FillOne(cs, Spec.Run(cs, before), n - 1, op.entry);
      RunNext(cs, before, op);
      hide OneEach, Spec.Run, Spec.Apply, ReachesAll, Usable, Routable, OfType;
    }
  }

  lemma KeyOfShard(kind: Key, i: nat, shards: nat) returns (key: Key)
    requires ReachesAll(kind, shards) && i < shards
    ensures OfType(kind, key) && Routable(key) && ShardIndex(key, shards) == i
  {
    hide OfType, Routable, ShardIndex;
    assert Reaches(kind, i, shards);
    key :| OfType(kind, key) && Routable(key) && ShardIndex(key, shards) == i;
  }

  lemma RunNext<V>(cs: seq<Config>, ops: seq<Op<Key, V>>, op: Op<Key, V>)
    requires IsPow2(|cs|) && Spec.RoutableRun(ops) && Spec.RoutableOp(op)
    ensures Spec.RoutableRun(ops + [op])
    ensures Spec.Run(cs, ops + [op]) == Spec.Apply(cs, Spec.Run(cs, ops), op)
  {
    assert (ops + [op])[..|ops|] == ops;
  }

  lemma FillOne<V>(cs: seq<Config>, view: seq<Lru<Key, V>>, i: nat, e: Entry<Key, V>)
    requires Usable(cs) && |cs| == |view| && i < |cs| && OneEach(view, i, e.cost)
    requires Routable(e.key) && ShardIndex(e.key, |cs|) == i
    ensures OneEach(Spec.Apply(cs, view, SetOp(e)), i + 1, e.cost)
  {
    assert view[i].entries == [];
    assert Put(cs[i], view[i], e).entries == [e];
  }

  lemma {:induction false} OneEachBytes<V>(view: seq<Lru<Key, V>>, n: nat, cost: nat)
    requires OneEach(view, |view|, cost) && n <= |view|
    ensures Spec.UsedBytes(view[..n]) == n * cost
  {
    if n != 0 {
      OneEachBytes(view, n - 1, cost);
      Spec.TotalsNext(view, n - 1);
      assert view[n - 1].entries == [view[n - 1].entries[0]];
      BytesOne(view[n - 1].entries[0]);
      hide Spec.UsedBytes, Bytes;
      assert n * cost == (n - 1) * cost + cost;
    }
  }

  /** When every entry costs the same, a sharded store keeps its byte limit on every run over a key
      type that reaches every shard exactly if the limit covers one entry per shard. Below that, shards
      are oversubscribed: each may always keep one entry, and a share of zero bytes even means no limit
      at all. */
  lemma ByteLimitKeptIff<V(!new)>(capacity: nat, maxBytes: nat, sample: nat, shards: nat, cost: nat, value: Stored<V>,
                                  kind: Key)
    requires Usable(Spec.Configs(capacity, maxBytes, sample, shards)) && 0 < cost && 0 < maxBytes
    requires ReachesAll(kind, shards)
    ensures shards * cost <= maxBytes <==>
              forall ops: seq<Op<Key, V>> | Spec.RoutableRun(ops) && SetsCost(ops, cost) && Keyed(ops, kind) ::
                Spec.UsedBytes(Spec.Run(Spec.Configs(capacity, maxBytes, sample, shards), ops)) <= maxBytes
  {
    var cs := Spec.Configs(capacity, maxBytes, sample, shards);
    if shards * cost <= maxBytes {
      forall ops: seq<Op<Key, V>> | Spec.RoutableRun(ops) && SetsCost(ops, cost) && Keyed(ops, kind)
        ensures Spec.UsedBytes(Spec.Run(cs, ops)) <= maxBytes
      {
        BytesWithinLimit(capacity, maxBytes, sample, shards, cost, ops);
      }
    } else {
      var ops := FillShards(cs, shards, cost, value, kind);
      var view := Spec.Run(cs, ops);
      OneEachBytes(view, shards, cost);
      assert view[..shards] == view;
    }
  }

  lemma {:induction false} RunKeys<V>(cs: seq<Config>, ops: seq<Op<Key, V>>, keys: set<Key>, i: nat)
    requires Usable(cs) && Spec.RoutableRun(ops) && i < |cs|
    requires forall n | 0 <= n < |ops| && ops[n].SetOp? :: ops[n].entry.key in keys
    ensures Keys(Spec.Run(cs, ops)[i].entries) <= keys
  {
    if ops != [] {
      var n := |ops| - 1;
      RunKeys(cs, ops[..n], keys, i);
      RunRouted(cs, ops[..n]);
      var view := Spec.Run(cs, ops[..n]);
      assert ShardOk(cs[i], view[i].entries, i, |view|);
      StepEntries(cs[i], view[i], ops[n]);
      KeysWithin(Spec.Run(cs, ops)[i].entries, view[i].entries, ops[n], keys);
    }
  }

  lemma KeysWithin<V>(es: seq<Entry<Key, V>>, before: seq<Entry<Key, V>>, op: Op<Key, V>, keys: set<Key>)
    requires Keys(before) <= keys && (op.SetOp? ==> op.entry.key in keys)
    requires forall e | e in es :: e in before || (op.SetOp? && e == op.entry)
    ensures Keys(es) <= keys
  {
    forall k | k in Keys(es) ensures k in keys {
      var e :| e in es && e.key == k;
      assert e in before ==> e.key in Keys(before);
    }
  }

  lemma {:induction false} LenAndBytes<V>(view: seq<Lru<Key, V>>, cost: nat, n: nat)
    requires AllShardsCost(view, cost) && n <= |view|
    ensures Spec.UsedBytes(view[..n]) == Spec.Len(view[..n]) * cost
  {
    if n != 0 {
      LenAndBytes(view, cost, n - 1);
      Spec.TotalsNext(view, n - 1);
      BytesOfConstant(view[n - 1].entries, cost);
      hide Spec.UsedBytes, Spec.Len, Bytes, AllShardsCost, AllCost;
      Distributes(Spec.Len(view[..n - 1]), |view[n - 1].entries|, cost);
    }
  }

  lemma {:induction false} AllKeysWithin<V>(view: seq<Lru<Key, V>>, keys: set<Key>, n: nat)
    requires n <= |view| && forall i | 0 <= i < |view| :: Keys(view[i].entries) <= keys
    ensures AllKeys(view[..n]) <= keys
  {
    if n != 0 {
      AllKeysWithin(view, keys, n - 1);
      AllKeysNext(view, n - 1);
    }
  }

  /** A store never holds more bytes than its key type has keys for. So a key type that does not reach
      every shard may do with a lower limit: over booleans no run exceeds the cost of two entries. */
  lemma FewKeysKeepLimit<V>(cs: seq<Config>, ops: seq<Op<Key, V>>, cost: nat, keys: set<Key>)
    requires Usable(cs) && Spec.RoutableRun(ops) && SetsCost(ops, cost)
    requires forall n | 0 <= n < |ops| && ops[n].SetOp? :: ops[n].entry.key in keys
    ensures Spec.UsedBytes(Spec.Run(cs, ops)) <= |keys| * cost
  {
    var view := Spec.Run(cs, ops);
    assert view[..|view|] == view;
    RunCost(cs, ops, cost);
    LenAndBytes(view, cost, |view|);
    LenCountsKeys(cs, ops);
    forall i | 0 <= i < |view| ensures Keys(view[i].entries) <= keys {
      RunKeys(cs, ops, keys, i);
    }
    AllKeysWithin(view, keys, |view|);
    SubsetSize(AllKeys(view), keys);
    TimesAtMost(|AllKeys(view)|, |keys|, cost);
  }

  lemma Distributes(a: nat, b: nat, c: nat)
    ensures (a + b) * c == a * c + b * c
  {
  }

  lemma TimesAtMost(a: nat, b: nat, c: nat)
    requires a <= b
    ensures a * c <= b * c
  {
  }
}
