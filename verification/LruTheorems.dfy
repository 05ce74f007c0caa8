/** Properties of every run of the LRU cache. The store of stores/memory/store.go has them
    because each of its methods is proved equal to the matching step of `LruSpec`. */
module LruTheorems {
  import opened Envelope
  import opened LruSpec

  /** What every operation keeps: distinct keys, the capacity, and the byte limit, which only a
      single oversized entry may exceed. */
  ghost predicate WithinLimits<K, V>(c: Config, es: seq<Entry<K, V>>) {
    && Distinct(es)
    && |es| <= c.cap
    && (0 < c.maxBytes < Bytes(es) ==> |es| == 1)
  }

  // ---------- one eviction rule for inserts and updates ----------

  lemma {:induction false} BytesMonotone<K, V>(es: seq<Entry<K, V>>, gone: set<K>)
    ensures Bytes(Drop(es, gone)) <= Bytes(es)
  {
    if es != [] {
      BytesMonotone(es[1..], gone);
    }
  }

  /** Trimming behind a new entry evicts exactly as making room for it does. */
  lemma {:induction false} TrimIsMakeRoom<K, V>(c: Config, es: seq<Entry<K, V>>, e: Entry<K, V>)
    requires |es| < c.cap
    ensures Trim(c, es + [e]) == MakeRoom(c, es, e.cost) + [e]
  {
    BytesConcat(es, [e]);
    BytesOne(e);
    if !Fits(c, es, e.cost) {
      TrimIsMakeRoom(c, es[1..], e);
      assert (es + [e])[1..] == es[1..] + [e];
    }
  }

  lemma SmallerWithout<K, V>(es: seq<Entry<K, V>>, key: K)
    requires Distinct(es) && Lookup(es, key).Some?
    ensures |Drop(es, {key})| < |es|
  {
    var e := Lookup(es, key).value;
    var i :| 0 <= i < |es| && es[i] == e;
    DropAt(es, i);
  }

  /** An update and an insert follow one rule: take the key out, evict from the least recent end
      until the entry fits, put it at the most recent end. */
  lemma PutIsEvictThenAppend<K, V>(c: Config, s: Lru<K, V>, e: Entry<K, V>)
    requires WithinLimits(c, s.entries)
    ensures Put(c, s, e).entries == MakeRoom(c, Drop(s.entries, {e.key}), e.cost) + [e]
  {
    if Lookup(s.entries, e.key).Some? {
      SmallerWithout(s.entries, e.key);
      TrimIsMakeRoom(c, Drop(s.entries, {e.key}), e);
    } else {
      DropNothing(s.entries, {e.key});
    }
  }

  /** Eviction is strictly from the least recent end and stops as soon as the entry fits. */
  lemma {:induction false} EvictsAsFewAsPossible<K, V>(c: Config, es: seq<Entry<K, V>>, cost: nat) returns (n: nat)
    ensures n <= |es| && MakeRoom(c, es, cost) == es[n..] && Fits(c, es[n..], cost)
    ensures forall m | 0 <= m < n :: !Fits(c, es[m..], cost)
  {
    if Fits(c, es, cost) {
      n := 0;
    } else {
      var k := EvictsAsFewAsPossible(c, es[1..], cost);
      n := k + 1;
      assert forall m | 0 < m <= |es| :: es[m..] == es[1..][m - 1..];
    }
  }

  // ---------- limits ----------

  lemma DropKeepsLimits<K, V>(c: Config, es: seq<Entry<K, V>>, gone: set<K>)
    requires WithinLimits(c, es)
    ensures WithinLimits(c, Drop(es, gone))
  {
    DropDistinct(es, gone);
    DropMembers(es, gone);
    BytesMonotone(es, gone);
    if |Drop(es, gone)| == 0 {
      assert Bytes(Drop(es, gone)) == 0;
    }
  }

  lemma TouchKeepsLimits<K, V>(c: Config, es: seq<Entry<K, V>>, key: K)
    requires WithinLimits(c, es)
    ensures WithinLimits(c, Touch(es, key))
  {
    var found := Lookup(es, key);
    if found.Some? {
      var e := found.value;
      var i :| 0 <= i < |es| && es[i] == e;
      RemoveIndex(es, i);
      DropDistinct(es, {key});
      DropMembers(es, {key});
      BytesConcat(Drop(es, {key}), [e]);
      BytesOne(e);
    }
  }

  lemma PutKeepsLimits<K, V>(c: Config, s: Lru<K, V>, e: Entry<K, V>)
    requires 0 < c.cap && WithinLimits(c, s.entries)
    ensures WithinLimits(c, Put(c, s, e).entries)
    ensures Lookup(Put(c, s, e).entries, e.key) == Some(e)
  {
    PutIsEvictThenAppend(c, s, e);
    var base := Drop(s.entries, {e.key});
    DropDistinct(s.entries, {e.key});
    DropMembers(s.entries, {e.key});
    var n := EvictsAsFewAsPossible(c, base, e.cost);
    var es := base[n..] + [e];
    BytesConcat(base[n..], [e]);
    BytesOne(e);
    assert Distinct(es);
    LookupAt(es, |es| - 1);
  }

  /** One operation keeps the limits. */
  lemma StepKeepsLimits<K, V>(c: Config, s: Lru<K, V>, op: Op<K, V>)
    requires 0 < c.cap && WithinLimits(c, s.entries)
    ensures WithinLimits(c, Apply(c, s, op).entries)
  {
    match op
    case GetOp(key) => TouchKeepsLimits(c, s.entries, key);
    case PeekOp(_) =>
    case PeekFreshOp(key, _) => TouchKeepsLimits(c, s.entries, key);
    case SetOp(e) => PutKeepsLimits(c, s, e);
    case DeleteOp(key) => DropKeepsLimits(c, s.entries, {key});
    case ClearOp =>
    case DeleteByTagOp(tag) => DropKeepsLimits(c, s.entries, TaggedKeys(s.entries, tag));
  }

  /** Every reachable store is within its capacity and byte limit. */
  lemma {:induction false} RunKeepsLimits<K, V>(c: Config, ops: seq<Op<K, V>>)
    requires 0 < c.cap
    ensures WithinLimits(c, Run(c, ops).entries)
  {
    if ops != [] {
      RunKeepsLimits(c, ops[..|ops| - 1]);
      StepKeepsLimits(c, Run(c, ops[..|ops| - 1]), ops[|ops| - 1]);
    }
  }

  // ---------- a lossy map ----------

  lemma {:induction false} LookupDrop<K, V>(es: seq<Entry<K, V>>, gone: set<K>, key: K)
    ensures Lookup(Drop(es, gone), key) == if key in gone then None else Lookup(es, key)
  {
    if es != [] {
      LookupDrop(es[1..], gone, key);
      DropHead(es, gone);
      if es[0].key !in gone {
        assert Drop(es, gone)[1..] == Drop(es[1..], gone);
      }
    }
  }

  lemma {:induction false} LookupAppend<K, V>(es: seq<Entry<K, V>>, e: Entry<K, V>, key: K)
    ensures Lookup(es + [e], key) ==
              if Lookup(es, key).Some? then Lookup(es, key) else if e.key == key then Some(e) else None
  {
    if es != [] {
      LookupAppend(es[1..], e, key);
      assert (es + [e])[1..] == es[1..] + [e];
    }
  }

  lemma {:induction false} LookupSuffix<K, V>(es: seq<Entry<K, V>>, n: nat, key: K)
    requires Distinct(es) && n <= |es|
    ensures Lookup(es[n..], key).Some? ==> Lookup(es[n..], key) == Lookup(es, key)
  {
    if Lookup(es[n..], key).Some? {
      LookupIff(es, Lookup(es[n..], key).value);
    }
  }

  lemma TouchValue<K, V>(s: Lru<K, V>, touched: K, key: K)
    ensures Value(Lru(Touch(s.entries, touched), s.hits), key) == Value(s, key)
  {
    var found := Lookup(s.entries, touched);
    if found.Some? {
      LookupDrop(s.entries, {touched}, key);
      LookupAppend(Drop(s.entries, {touched}), found.value, key);
    }
  }

  lemma PutValue<K, V>(c: Config, s: Lru<K, V>, e: Entry<K, V>, key: K)
    requires 0 < c.cap && WithinLimits(c, s.entries)
    ensures var after := Value(Put(c, s, e), key);
            if key == e.key then after == Some(e.value) else after == None || after == Value(s, key)
  {
    var base := Drop(s.entries, {e.key});
    PutIsEvictThenAppend(c, s, e);
    PutKeepsLimits(c, s, e);
    var n := EvictsAsFewAsPossible(c, base, e.cost);
    DropDistinct(s.entries, {e.key});
    LookupSuffix(base, n, key);
    LookupDrop(s.entries, {e.key}, key);
    LookupAppend(base[n..], e, key);
  }

  lemma DeleteByTagValue<K, V>(s: Lru<K, V>, tag: string, key: K)
    requires Distinct(s.entries)
    ensures var before := Value(s, key);
            Value(DeleteByTag(s, tag), key) == if before.Some? && tag in before.value.tags then None else before
  {
    var es := s.entries;
    LookupDrop(es, TaggedKeys(es, tag), key);
    if key in TaggedKeys(es, tag) {
      var e :| e in es && tag in e.value.tags && e.key == key;
      LookupIff(es, e);
    }
  }

  /** What an operation may do to the value of a key: a set makes its own key hit and may only
      evict others, deletions remove exactly what they name, and lookups change nothing. */
  ghost predicate MapStep<K, V>(op: Op<K, V>, key: K, before: Option<Stored<V>>, after: Option<Stored<V>>) {
    match op
    case SetOp(e) => if key == e.key then after == Some(e.value) else after == None || after == before
    case DeleteOp(k) => after == if key == k then None else before
    case ClearOp => after == None
    case DeleteByTagOp(tag) => after == if before.Some? && tag in before.value.tags then None else before
    case _ => after == before
  }

  /** The store is a map that may forget. */
  lemma RefinesLossyMap<K, V>(c: Config, s: Lru<K, V>, op: Op<K, V>, key: K)
    requires 0 < c.cap && WithinLimits(c, s.entries)
    ensures MapStep(op, key, Value(s, key), Value(Apply(c, s, op), key))
  {
    match op
    case GetOp(k) => TouchValue(s, k, key);
    case PeekOp(_) =>
    case PeekFreshOp(k, _) => TouchValue(s, k, key);
    case SetOp(e) => PutValue(c, s, e, key);
    case DeleteOp(k) => LookupDrop(s.entries, {k}, key);
    case ClearOp =>
    case DeleteByTagOp(tag) => DeleteByTagValue(s, tag, key);
  }

  lemma {:induction false} KeysCount<K, V>(es: seq<Entry<K, V>>)
    requires Distinct(es)
    ensures |Keys(es)| == |es|
  {
    if es != [] {
      KeysCount(es[1..]);
      assert es[0].key !in Keys(es[1..]);
      hide Distinct;
      KeysHead(es);
    }
  }

  lemma KeysHead<K, V>(es: seq<Entry<K, V>>)
    requires es != []
    ensures Keys(es) == {es[0].key} + Keys(es[1..])
  {
    forall k | k in Keys(es) ensures k in {es[0].key} + Keys(es[1..]) {
      var e :| e in es && e.key == k;
      assert e == es[0] || e in es[1..];
    }
  }

  // ---------- a constant entry cost ----------

  /** The item capacity that a byte limit amounts to when every entry costs `cost`. */
  function EffectiveCap(c: Config, cost: nat): nat
    requires 0 < cost
  {
    if c.maxBytes == 0 then c.cap
    else
      var byBytes := if c.maxBytes / cost == 0 then 1 else c.maxBytes / cost;
      if c.cap < byBytes then c.cap else byBytes
  }

  ghost predicate AllCost<K, V>(es: seq<Entry<K, V>>, cost: nat) {
    forall e | e in es :: e.cost == cost
  }

  lemma {:induction false} BytesOfConstant<K, V>(es: seq<Entry<K, V>>, cost: nat)
    requires AllCost(es, cost)
    ensures Bytes(es) == |es| * cost
  {
    if es != [] {
      assert es[0] in es;
      BytesOfConstant(es[1..], cost);
    }
  }

  lemma DivisionBound(n: nat, cost: nat, limit: nat)
    requires 0 < cost
    ensures n * cost <= limit <==> n <= limit / cost
  {
    var q, r := limit / cost, limit % cost;
    assert limit == q * cost + r && r < cost;
    if n <= q {
      assert n * cost <= q * cost;
    } else {
      assert (q + 1) * cost <= n * cost;
    }
  }

  lemma FitsByCount<K, V>(c: Config, es: seq<Entry<K, V>>, cost: nat)
    requires 0 < c.cap && 0 < cost && AllCost(es, cost)
    ensures Fits(c, es, cost) <==> Fits(Config(EffectiveCap(c, cost), 0, c.sample), es, cost)
  {
    BytesOfConstant(es, cost);
    assert Bytes(es) + cost == (|es| + 1) * cost;
    DivisionBound(|es| + 1, cost, c.maxBytes);
  }

  lemma {:induction false} MakeRoomByCount<K, V>(c: Config, es: seq<Entry<K, V>>, cost: nat)
    requires 0 < c.cap && 0 < cost && AllCost(es, cost)
    ensures MakeRoom(c, es, cost) == MakeRoom(Config(EffectiveCap(c, cost), 0, c.sample), es, cost)
  {
    FitsByCount(c, es, cost);
    if !Fits(c, es, cost) {
      MakeRoomByCount(c, es[1..], cost);
    }
  }

  ghost predicate SetsCost<K, V>(ops: seq<Op<K, V>>, cost: nat) {
    forall i | 0 <= i < |ops| && ops[i].SetOp? :: ops[i].entry.cost == cost
  }

  /** An operation adds no entry but the one it sets. */
  lemma StepEntries<K, V>(c: Config, s: Lru<K, V>, op: Op<K, V>)
    requires WithinLimits(c, s.entries)
    ensures forall x | x in Apply(c, s, op).entries :: x in s.entries || (op.SetOp? && x == op.entry)
  {
    match op
    case GetOp(key) => DropMembers(s.entries, {key});
    case PeekOp(_) =>
    case PeekFreshOp(key, _) => DropMembers(s.entries, {key});
    case SetOp(e) =>
      PutIsEvictThenAppend(c, s, e);
      var n := EvictsAsFewAsPossible(c, Drop(s.entries, {e.key}), e.cost);
      DropMembers(s.entries, {e.key});
    case DeleteOp(key) => DropMembers(s.entries, {key});
    case ClearOp =>
    case DeleteByTagOp(tag) => DropMembers(s.entries, TaggedKeys(s.entries, tag));
  }

  lemma PutByCount<K, V>(c: Config, s: Lru<K, V>, e: Entry<K, V>)
    requires 0 < c.cap && 0 < e.cost && AllCost(s.entries, e.cost)
    requires WithinLimits(c, s.entries)
    requires WithinLimits(Config(EffectiveCap(c, e.cost), 0, c.sample), s.entries)
    ensures Put(c, s, e) == Put(Config(EffectiveCap(c, e.cost), 0, c.sample), s, e)
    ensures Lookup(s.entries, e.key).Some? ==> Put(c, s, e).entries == Drop(s.entries, {e.key}) + [e]
  {
    var plain := Config(EffectiveCap(c, e.cost), 0, c.sample);
    var base := Drop(s.entries, {e.key});
    PutIsEvictThenAppend(c, s, e);
    PutIsEvictThenAppend(plain, s, e);
    DropMembers(s.entries, {e.key});
    MakeRoomByCount(c, base, e.cost);
    if Lookup(s.entries, e.key).Some? {
      SmallerWithout(s.entries, e.key);
    }
  }

  /** When every entry costs the same, as `entryBytes` makes it for fixed key and value types, a
      store with a byte limit behaves on every run as one with an item capacity only. */
  lemma {:induction false} ByteLimitIsItemLimit<K, V>(c: Config, ops: seq<Op<K, V>>, cost: nat)
    requires 0 < c.cap && 0 < cost && SetsCost(ops, cost)
    ensures Run(c, ops) == Run(Config(EffectiveCap(c, cost), 0, c.sample), ops)
    ensures AllCost(Run(c, ops).entries, cost)
  {
    if ops != [] {
      var plain := Config(EffectiveCap(c, cost), 0, c.sample);
      var before, op := ops[..|ops| - 1], ops[|ops| - 1];
      ByteLimitIsItemLimit(c, before, cost);
      RunKeepsLimits(c, before);
      RunKeepsLimits(plain, before);
      StepEntries(c, Run(c, before), op);
      if op.SetOp? {
        PutByCount(c, Run(c, before), op.entry);
      }
    }
  }

  /** ... and replacing a value never evicts another entry. */
  lemma UpdateNeverEvicts<K, V>(c: Config, ops: seq<Op<K, V>>, e: Entry<K, V>)
    requires 0 < c.cap && 0 < e.cost && SetsCost(ops, e.cost)
    requires Lookup(Run(c, ops).entries, e.key).Some?
    ensures Put(c, Run(c, ops), e).entries == Drop(Run(c, ops).entries, {e.key}) + [e]
  {
    var plain := Config(EffectiveCap(c, e.cost), 0, c.sample);
    ByteLimitIsItemLimit(c, ops, e.cost);
    RunKeepsLimits(c, ops);
    RunKeepsLimits(plain, ops);
    PutByCount(c, Run(c, ops), e);
  }
}
