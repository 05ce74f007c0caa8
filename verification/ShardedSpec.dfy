/** A sharded cache as a sequence of plain LRU caches, one per shard. */
module ShardedSpec {
  import opened Envelope
  import opened Words
  import opened LruSpec
  import opened Hashing
  import opened Sharding

  /** The configuration of each shard. A byte share of zero means no limit, as in an unsharded store. */
  function Configs(capacity: nat, maxBytes: nat, sample: nat, shards: nat): (cs: seq<Config>)
    ensures |cs| == shards
  {
    seq(shards, i requires 0 <= i < shards =>
      Config(Share(capacity, shards, i) % TWO_TO_32, Share(maxBytes, shards, i), sample))
  }

  predicate RoutableOp<V>(op: Op<Key, V>) {
    match op
    case GetOp(k) => Routable(k)
    case PeekOp(k) => Routable(k)
    case PeekFreshOp(k, _) => Routable(k)
    case SetOp(e) => Routable(e.key)
    case DeleteOp(k) => Routable(k)
    case _ => true
  }

  /** The key of an operation on one key. */
  function OpKey<V>(op: Op<Key, V>): Option<Key> {
    match op
    case GetOp(k) => Some(k)
    case PeekOp(k) => Some(k)
    case PeekFreshOp(k, _) => Some(k)
    case SetOp(e) => Some(e.key)
    case DeleteOp(k) => Some(k)
    case _ => None
  }

  /** An operation on a key goes to the shard of the key, the others go to every shard. */
  ghost function Apply<V>(cs: seq<Config>, view: seq<Lru<Key, V>>, op: Op<Key, V>): (view': seq<Lru<Key, V>>)
    requires |cs| == |view| && IsPow2(|view|) && RoutableOp(op)
    ensures |view'| == |view|
  {
    match OpKey(op)
    case Some(k) =>
      ShardIndexInRange(k, |view|);
      var i := ShardIndex(k, |view|);
      view[i := LruSpec.Apply(cs[i], view[i], op)]
    case None =>
      seq(|view|, i requires 0 <= i < |view| => LruSpec.Apply(cs[i], view[i], op))
  }

  function Empty<V>(shards: nat): (view: seq<Lru<Key, V>>)
    ensures |view| == shards
  {
    seq(shards, i => Lru([], 0))
  }

  ghost predicate RoutableRun<V>(ops: seq<Op<Key, V>>) {
    forall i | 0 <= i < |ops| :: RoutableOp(ops[i])
  }

  ghost function Run<V>(cs: seq<Config>, ops: seq<Op<Key, V>>): (view: seq<Lru<Key, V>>)
    requires IsPow2(|cs|) && RoutableRun(ops)
    ensures |view| == |cs|
  {
    if ops == [] then Empty(|cs|) else Apply(cs, Run(cs, ops[..|ops| - 1]), ops[|ops| - 1])
  }

  function Len<V>(view: seq<Lru<Key, V>>): nat {
    if view == [] then 0 else Len(view[..|view| - 1]) + |view[|view| - 1].entries|
  }

  function UsedBytes<V>(view: seq<Lru<Key, V>>): nat {
    if view == [] then 0 else UsedBytes(view[..|view| - 1]) + Bytes(view[|view| - 1].entries)
  }

  lemma TotalsNext<V>(view: seq<Lru<Key, V>>, i: nat)
    requires i < |view|
    ensures Len(view[..i + 1]) == Len(view[..i]) + |view[i].entries|
    ensures UsedBytes(view[..i + 1]) == UsedBytes(view[..i]) + Bytes(view[i].entries)
  {
    assert view[..i + 1][..i] == view[..i];
  }
}
