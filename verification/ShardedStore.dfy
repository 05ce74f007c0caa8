/** The sharded store (stores/memory/sharded.go): independent LRU stores, one per shard. */
module ShardedStore {
  import opened Envelope
  import opened Words
  import opened LruSpec
  import opened LruStore
  import opened Hashing
  import opened Sharding
  import Spec = ShardedSpec

  method ShareOf(total: nat, count: nat, i: nat) returns (share: nat)
    requires i < count
    ensures share == Share(total, count, i)
  {
    share := total / count;
    if i < total % count {
      share := share + 1;
    }
  }

  class Sharded<V> {
    const shards: seq<Store<Key, V>>
    const mask: nat
    const entryBytes: (Key, Stored<V>) -> nat

    ghost function Footprint(): set<object> {
      (set i | 0 <= i < |shards| :: shards[i] as object) + (set i | 0 <= i < |shards| :: shards[i].elements as object)
    }

    /** The shards are separate objects over separate arrays. */
    ghost predicate Separate() {
      forall i, j | 0 <= i < j < |shards| :: shards[i] != shards[j] && shards[i].elements != shards[j].elements
    }

    ghost predicate Valid()
      reads Footprint()
    {
      && IsPow2(|shards|) && mask == |shards| - 1
      && Separate()
      && forall i | 0 <= i < |shards| :: shards[i].Valid() && shards[i].entryBytes == entryBytes
    }

    ghost function View(): (view: seq<Lru<Key, V>>)
      reads Footprint()
      requires Valid()
      ensures |view| == |shards|
    {
      seq(|shards|, i requires 0 <= i < |shards| reads Footprint() requires shards[i].Valid() => shards[i].State())
    }

    ghost function Configs(): (cs: seq<Config>)
      ensures |cs| == |shards|
    {
      seq(|shards|, i requires 0 <= i < |shards| => shards[i].Config())
    }

    constructor (count: nat, capacity: nat, maxBytes: nat, sample: nat, entryBytes: (Key, Stored<V>) -> nat)
      requires IsPow2(count) && count <= capacity
      ensures Valid() && fresh(Footprint())
      ensures |shards| == count && View() == Spec.Empty(count)
      ensures Configs() == Spec.Configs(capacity, maxBytes, if sample == 0 then 1 else sample, count)
      ensures this.entryBytes == entryBytes
    {
      hide Store.Valid, Store.State;
      var made: seq<Store<Key, V>> := [];
      SharesAddUp(capacity, count);
      for i := 0 to count
        invariant |made| == i
        invariant forall j | 0 <= j < i :: fresh(made[j]) && fresh(made[j].elements) && made[j].Valid()
        invariant forall j | 0 <= j < i :: made[j].State() == Lru([], 0) && made[j].entryBytes == entryBytes
        invariant forall j | 0 <= j < i :: made[j].Config() ==
                    Config(Share(capacity, count, j) % TWO_TO_32, Share(maxBytes, count, j),
                           if sample == 0 then 1 else sample)
        invariant forall j, k | 0 <= j < k < i :: made[j] != made[k] && made[j].elements != made[k].elements
      {
        var shardCap := ShareOf(capacity, count, i);
        var shardBytes := ShareOf(maxBytes, count, i);
        var s := new Store<Key, V>(shardCap, shardBytes, sample, entryBytes);
        made := made + [s];
      }
      shards := made;
      mask := count - 1;
      this.entryBytes := entryBytes;
    }

    /** `NewSharded`; `None` is a panic. */
    static method New(requested: int, processors: nat, capacity: int, maxBytes: nat, sample: nat,
                      entryBytes: (Key, Stored<V>) -> nat)
      returns (r: Option<Sharded<V>>)
      requires MIN_INT <= requested < -MIN_INT && capacity < -MIN_INT && 16 * processors <= Pow2(62)
      ensures r.None? <==> capacity <= 0 || (requested != 0 && !IsPow2(requested))
      ensures r.Some? ==> r.value.Valid() && fresh(r.value.Footprint())
      ensures r.Some? ==>
                var n := |r.value.shards|;
                && n <= capacity && (requested != 0 ==> n <= requested)
                && (forall p | IsPow2(p) && p <= (if requested != 0 then requested else 16 * processors)
                    && p <= capacity :: p <= n)
                && r.value.View() == Spec.Empty(n)
                && r.value.Configs() == Spec.Configs(capacity, maxBytes, if sample == 0 then 1 else sample, n)
    {
      if capacity <= 0 {
        return None;
      }
      var choice := ChooseShards(requested, processors, capacity);
      if choice.Panics? {
        return None;
      }
      var s := new Sharded(choice.count, capacity, maxBytes, sample, entryBytes);
      return Some(s);
    }

    /** The shard of a key. */
    method Shard(key: Key) returns (i: nat)
      requires Valid() && Routable(key)
      ensures i == ShardIndex(key, |shards|) < |shards|
    {
      ShardIndexInRange(key, |shards|);
      i := And(Shr(Comparable(OFFSET, key), 16), mask);
    }

    method Set(key: Key, value: Stored<V>) returns (panicked: bool)
      requires Valid() && Routable(key)
      modifies Footprint()
      ensures Valid() && ShardIndex(key, |shards|) < |shards|
      ensures panicked <==> Configs()[ShardIndex(key, |shards|)].cap == 0
      ensures panicked ==> View() == old(View())
      ensures !panicked ==>
                View() == Spec.Apply(Configs(), old(View()), SetOp(Entry(key, value, entryBytes(key, value))))
    {
      hide Store.Valid, Store.State;
      var i := Shard(key);
      panicked := shards[i].Set(key, value);
      assert View() == old(View())[i := shards[i].State()];
    }

    method Get(key: Key) returns (r: Option<Stored<V>>)
      requires Valid() && Routable(key)
      modifies Footprint()
      ensures Valid() && View() == Spec.Apply(Configs(), old(View()), GetOp(key))
      ensures ShardIndex(key, |shards|) < |shards| && r == Value(old(View())[ShardIndex(key, |shards|)], key)
    {
      hide Store.Valid, Store.State;
      var i := Shard(key);
      r := shards[i].Get(key);
      assert View() == old(View())[i := shards[i].State()];
    }

    method PeekFreshValue(key: Key, now: Time) returns (r: Option<V>)
      requires Valid() && Routable(key)
      modifies Footprint()
      ensures Valid() && View() == Spec.Apply(Configs(), old(View()), PeekFreshOp(key, now))
      ensures ShardIndex(key, |shards|) < |shards|
      ensures var found := Value(old(View())[ShardIndex(key, |shards|)], key);
              r == if found.Some? && IsFresh(found.value, now) then Some(found.value.value) else None
    {
      hide Store.Valid, Store.State;
      var i := Shard(key);
      r := shards[i].PeekFreshValue(key, now);
      assert View() == old(View())[i := shards[i].State()];
    }

    method Peek(key: Key) returns (r: Option<Stored<V>>)
      requires Valid() && Routable(key)
      ensures ShardIndex(key, |shards|) < |shards| && r == Value(View()[ShardIndex(key, |shards|)], key)
    {
      hide Store.Valid, Store.State;
      var i := Shard(key);
      r := shards[i].Peek(key);
    }

    method Delete(key: Key)
      requires Valid() && Routable(key)
      modifies Footprint()
      ensures Valid() && View() == Spec.Apply(Configs(), old(View()), DeleteOp(key))
    {
      hide Store.Valid, Store.State;
      var i := Shard(key);
      shards[i].Delete(key);
      assert View() == old(View())[i := shards[i].State()];
    }

    method Clear()
      requires Valid()
      modifies Footprint()
      ensures Valid() && View() == Spec.Apply(Configs(), old(View()), ClearOp)
    {
      hide Store.Valid, Store.State;
      for i := 0 to |shards|
        invariant Valid()
        invariant forall j | 0 <= j < i :: shards[j].State() == Lru([], old(View())[j].hits)
        invariant forall j | i <= j < |shards| :: shards[j].State() == old(View())[j]
      {
        shards[i].Clear();
      }
    }

    method DeleteByTag(tag: string)
      requires Valid()
      modifies Footprint()
      ensures Valid() && View() == Spec.Apply(Configs(), old(View()), DeleteByTagOp(tag))
    {
      hide Store.Valid, Store.State;
      for i := 0 to |shards|
        invariant Valid()
        invariant forall j | 0 <= j < i :: shards[j].State() == LruSpec.DeleteByTag(old(View())[j], tag)
        invariant forall j | i <= j < |shards| :: shards[j].State() == old(View())[j]
      {
        shards[i].DeleteByTag(tag);
      }
    }

    method Len() returns (total: nat)
      requires Valid()
      ensures total == Spec.Len(View())
    {
      hide Store.Valid, Store.State;
      total := 0;
      ghost var view := View();
      for i := 0 to |shards|
        invariant View() == view && total == Spec.Len(view[..i])
      {
        var n := shards[i].Len();
        assert view[i] == shards[i].State();
        total := total + n;
        Spec.TotalsNext(view, i);
      }
      assert view[..|shards|] == view;
    }

    method UsedBytes() returns (total: int)
      requires Valid()
      ensures total == Spec.UsedBytes(View())
    {
      hide Store.Valid, Store.State;
      total := 0;
      ghost var view := View();
      for i := 0 to |shards|
        invariant View() == view && total == Spec.UsedBytes(view[..i])
      {
        var n := shards[i].UsedBytes();
        assert view[i] == shards[i].State();
        total := total + n;
        Spec.TotalsNext(view, i);
      }
      assert view[..|shards|] == view;
    }
  }
}
