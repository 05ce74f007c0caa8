/** A plain LRU cache: a sequence of entries ordered from least to most recently used.
    This is the meaning that the array-backed store of stores/memory/store.go is proved against. */
module LruSpec {
  import opened Envelope
  import opened Words

  datatype Entry<K, V> = Entry(key: K, value: Stored<V>, cost: nat)

  /** `maxBytes == 0` means no byte limit; `sample <= 1` means exact recency. */
  datatype Config = Config(cap: nat, maxBytes: nat, sample: nat)

  datatype Lru<K, V> = Lru(entries: seq<Entry<K, V>>, hits: nat)

  // ---------- entries ----------

  predicate Distinct<K(==), V>(es: seq<Entry<K, V>>) {
    forall i, j | 0 <= i < j < |es| :: es[i].key != es[j].key
  }

  ghost function Keys<K, V>(es: seq<Entry<K, V>>): set<K> {
    set e | e in es :: e.key
  }

  function Bytes<K, V>(es: seq<Entry<K, V>>): (n: nat) {
    if es == [] then 0 else es[0].cost + Bytes(es[1..])
  }

  /** The entries whose key is not in `gone`, in their original order. */
  function Drop<K(==), V>(es: seq<Entry<K, V>>, gone: set<K>): seq<Entry<K, V>> {
    if es == [] then []
    else if es[0].key in gone then Drop(es[1..], gone)
    else [es[0]] + Drop(es[1..], gone)
  }

  function Lookup<K(==), V>(es: seq<Entry<K, V>>, key: K): (r: Option<Entry<K, V>>)
    ensures r.Some? ==> r.value in es && r.value.key == key
    ensures r.None? ==> forall e | e in es :: e.key != key
  {
    if es == [] then None
    else if es[0].key == key then Some(es[0])
    else Lookup(es[1..], key)
  }

  /** The value stored under a key, disregarding recency. */
  ghost function Value<K, V>(s: Lru<K, V>, key: K): Option<Stored<V>> {
    match Lookup(s.entries, key)
    case None => None
    case Some(e) => Some(e.value)
  }

  ghost function TaggedKeys<K, V>(es: seq<Entry<K, V>>, tag: string): set<K> {
    set e | e in es && tag in e.value.tags :: e.key
  }

  // ---------- operations ----------

  function Touch<K(==), V>(es: seq<Entry<K, V>>, key: K): seq<Entry<K, V>> {
    match Lookup(es, key)
    case None => es
    case Some(e) => Drop(es, {key}) + [e]
  }

  /** Whether the next hit refreshes recency, and the hit counter afterwards. */
  function CountHit(c: Config, hits: nat): (bool, nat) {
    if c.sample <= 1 then (true, hits)
    else
      var n := (hits + 1) % TWO_TO_64;
      (n % c.sample == 0, n)
  }

  function Hit<K(==), V>(c: Config, s: Lru<K, V>, key: K): Lru<K, V> {
    var (refresh, hits) := CountHit(c, s.hits);
    Lru(if refresh then Touch(s.entries, key) else s.entries, hits)
  }

  function Get<K(==), V>(c: Config, s: Lru<K, V>, key: K): Lru<K, V> {
    if Lookup(s.entries, key).Some? then Hit(c, s, key) else s
  }

  function PeekFresh<K(==), V>(c: Config, s: Lru<K, V>, key: K, now: Time): Lru<K, V> {
    var found := Lookup(s.entries, key);
    if found.Some? && IsFresh(found.value.value, now) then Hit(c, s, key) else s
  }

  /** Does a new entry of the given cost fit behind `es`? An empty store takes any entry. */
  predicate Fits<K, V>(c: Config, es: seq<Entry<K, V>>, cost: nat) {
    es == [] || (|es| < c.cap && (c.maxBytes == 0 || Bytes(es) + cost <= c.maxBytes))
  }

  /** Evict from the least recent end until a new entry of the given cost fits. */
  function MakeRoom<K, V>(c: Config, es: seq<Entry<K, V>>, cost: nat): seq<Entry<K, V>> {
    if Fits(c, es, cost) then es else MakeRoom(c, es[1..], cost)
  }

  /** Evict from the least recent end until the byte limit holds or one entry is left. */
  function Trim<K, V>(c: Config, es: seq<Entry<K, V>>): seq<Entry<K, V>> {
    if 0 < c.maxBytes < Bytes(es) && 1 < |es| then Trim(c, es[1..]) else es
  }

  function Put<K(==), V>(c: Config, s: Lru<K, V>, e: Entry<K, V>): Lru<K, V> {
    if Lookup(s.entries, e.key).Some? then
      s.(entries := Trim(c, Drop(s.entries, {e.key}) + [e]))
    else
      s.(entries := MakeRoom(c, s.entries, e.cost) + [e])
  }

  function Delete<K(==), V>(s: Lru<K, V>, key: K): Lru<K, V> {
    s.(entries := Drop(s.entries, {key}))
  }

  ghost function DeleteByTag<K, V>(s: Lru<K, V>, tag: string): Lru<K, V> {
    s.(entries := Drop(s.entries, TaggedKeys(s.entries, tag)))
  }

  // ---------- runs ----------

  datatype Op<K, V> =
    | GetOp(key: K)
    | PeekOp(key: K)
    | PeekFreshOp(key: K, now: Time)
    | SetOp(entry: Entry<K, V>)
    | DeleteOp(key: K)
    | ClearOp
    | DeleteByTagOp(tag: string)

  ghost function Apply<K, V>(c: Config, s: Lru<K, V>, op: Op<K, V>): Lru<K, V> {
    match op
    case GetOp(key) => Get(c, s, key)
    case PeekOp(key) => s
    case PeekFreshOp(key, now) => PeekFresh(c, s, key, now)
    case SetOp(e) => Put(c, s, e)
    case DeleteOp(key) => Delete(s, key)
    case ClearOp => s.(entries := [])
    case DeleteByTagOp(tag) => DeleteByTag(s, tag)
  }

  ghost function Run<K, V>(c: Config, ops: seq<Op<K, V>>): Lru<K, V> {
    if ops == [] then Lru([], 0) else Apply(c, Run(c, ops[..|ops| - 1]), ops[|ops| - 1])
  }

  lemma Follow<K, V>(c: Config, ops: seq<Op<K, V>>, op: Op<K, V>)
    ensures Run(c, ops + [op]) == Apply(c, Run(c, ops), op)
  {
    assert (ops + [op])[..|ops|] == ops;
  }

  // ---------- algebra of Drop ----------

  lemma {:induction false} DropMembers<K, V>(es: seq<Entry<K, V>>, gone: set<K>)
    ensures forall e | e in Drop(es, gone) :: e in es && e.key !in gone
    ensures forall e | e in es && e.key !in gone :: e in Drop(es, gone)
    ensures |Drop(es, gone)| <= |es|
  {
    if es != [] {
      DropMembers(es[1..], gone);
    }
  }

  lemma DropHead<K, V>(es: seq<Entry<K, V>>, gone: set<K>)
    requires es != []
    ensures Drop(es, gone) == (if es[0].key in gone then [] else [es[0]]) + Drop(es[1..], gone)
  {
  }

  lemma {:induction false} DropConcat<K, V>(a: seq<Entry<K, V>>, b: seq<Entry<K, V>>, gone: set<K>)
    ensures Drop(a + b, gone) == Drop(a, gone) + Drop(b, gone)
  {
    if a == [] {
      assert a + b == b;
    } else {
      var ab := a + b;
      assert ab[0] == a[0] && ab[1..] == a[1..] + b;
      DropConcat(a[1..], b, gone);
    }
  }

  lemma {:induction false} DropDrop<K, V>(es: seq<Entry<K, V>>, s: set<K>, t: set<K>)
    ensures Drop(Drop(es, s), t) == Drop(es, s + t)
  {
    if es != [] {
      DropDrop(es[1..], s, t);
      if es[0].key !in s {
        var rest := Drop(es[1..], s);
        assert ([es[0]] + rest)[1..] == rest;
      }
    }
  }

  lemma {:induction false} DropNothing<K, V>(es: seq<Entry<K, V>>, gone: set<K>)
    requires forall e | e in es :: e.key !in gone
    ensures Drop(es, gone) == es
  {
    if es != [] {
      DropNothing(es[1..], gone);
    }
  }

  lemma {:induction false} DropAt<K, V>(es: seq<Entry<K, V>>, i: nat)
    requires Distinct(es) && i < |es|
    ensures Drop(es, {es[i].key}) == es[..i] + es[i + 1..]
  {
    var before, after := es[..i], es[i + 1..];
    assert es[i..][1..] == after && es == before + es[i..];
    DropHead(es[i..], {es[i].key});
    hide Drop;
    DropConcat(before, es[i..], {es[i].key});
    DropNothing(before, {es[i].key});
    DropNothing(after, {es[i].key});
  }

  lemma DropFirst<K, V>(es: seq<Entry<K, V>>)
    requires Distinct(es) && es != []
    ensures Drop(es, {es[0].key}) == es[1..]
  {
    DropAt(es, 0);
  }

  lemma TouchLast<K, V>(es: seq<Entry<K, V>>)
    requires Distinct(es) && es != []
    ensures Touch(es, es[|es| - 1].key) == es
  {
    LookupAt(es, |es| - 1);
    DropAt(es, |es| - 1);
  }

  lemma {:induction false} DropDistinct<K, V>(es: seq<Entry<K, V>>, gone: set<K>)
    requires Distinct(es)
    ensures Distinct(Drop(es, gone))
  {
    if es != [] {
      DropDistinct(es[1..], gone);
      DropMembers(es[1..], gone);
      forall e | e in Drop(es[1..], gone) ensures e.key != es[0].key {
        assert e in es[1..];
      }
    }
  }

  lemma {:induction false} LookupAt<K, V>(es: seq<Entry<K, V>>, i: nat)
    requires Distinct(es) && i < |es|
    ensures Lookup(es, es[i].key) == Some(es[i])
  {
    if i != 0 {
      LookupAt(es[1..], i - 1);
    }
  }

  lemma LookupIff<K, V>(es: seq<Entry<K, V>>, e: Entry<K, V>)
    requires Distinct(es)
    ensures Lookup(es, e.key) == Some(e) <==> e in es
  {
    if e in es {
      var i :| 0 <= i < |es| && es[i] == e;
      LookupAt(es, i);
    }
  }

  lemma {:induction false} BytesConcat<K, V>(a: seq<Entry<K, V>>, b: seq<Entry<K, V>>)
    ensures Bytes(a + b) == Bytes(a) + Bytes(b)
  {
    if a == [] {
      assert a + b == b;
    } else {
      BytesConcat(a[1..], b);
      assert (a + b)[1..] == a[1..] + b;
    }
  }

  lemma BytesOne<K, V>(e: Entry<K, V>)
    ensures Bytes([e]) == e.cost
  {
  }

  lemma BytesAt<K, V>(es: seq<Entry<K, V>>, i: nat)
    requires i < |es|
    ensures Bytes(es) == Bytes(es[..i] + es[i + 1..]) + es[i].cost
  {
    BytesConcat(es[..i], es[i..]);
    assert es == es[..i] + es[i..];
    BytesConcat(es[..i], es[i + 1..]);
    assert es[i..][1..] == es[i + 1..];
  }

  lemma RemoveIndex<K, V>(es: seq<Entry<K, V>>, i: nat)
    requires Distinct(es) && i < |es|
    ensures Lookup(es, es[i].key) == Some(es[i])
    ensures Drop(es, {es[i].key}) == es[..i] + es[i + 1..]
    ensures Bytes(es) == Bytes(es[..i] + es[i + 1..]) + es[i].cost
  {
    LookupAt(es, i);
    DropAt(es, i);
    BytesAt(es, i);
  }

  lemma TaggedKeysRest<K, V>(es: seq<Entry<K, V>>, key: K, tag: string)
    ensures TaggedKeys(Drop(es, {key}), tag) == TaggedKeys(es, tag) - {key}
  {
    var rest := Drop(es, {key});
    DropMembers(es, {key});
    forall k | k in TaggedKeys(es, tag) && k != key ensures k in TaggedKeys(rest, tag) {
      var e :| e in es && tag in e.value.tags && e.key == k;
      assert e in rest;
    }
    forall k | k in TaggedKeys(rest, tag) ensures k in TaggedKeys(es, tag) - {key} {
      var e :| e in rest && tag in e.value.tags && e.key == k;
      assert e in es;
    }
  }

  lemma DropOneTagged<K, V>(es: seq<Entry<K, V>>, e: Entry<K, V>, tag: string)
    requires e in es && tag in e.value.tags
    ensures var rest := Drop(es, {e.key});
            Drop(rest, TaggedKeys(rest, tag)) == Drop(es, TaggedKeys(es, tag))
  {
    TaggedKeysRest(es, e.key, tag);
    assert e.key in TaggedKeys(es, tag);
    assert {e.key} + (TaggedKeys(es, tag) - {e.key}) == TaggedKeys(es, tag);
    DropDrop(es, {e.key}, TaggedKeys(es, tag) - {e.key});
  }
}
