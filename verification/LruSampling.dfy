/** Which hits refresh recency: every n-th counted hit of a run, n being the sampling interval. */
module LruSampling {
  import opened Envelope
  import opened Words
  import opened LruSpec
  import opened LruTheorems
  import opened LruInclusion

  /** The key that an operation hits, if it is a `Get` of a key that is held or a `PeekFreshValue` of one
      whose entry is fresh. */
  ghost function HitKey<K, V>(es: seq<Entry<K, V>>, op: Op<K, V>): Option<K> {
    match op
    case GetOp(key) => if exists e :: e in es && e.key == key then Some(key) else None
    case PeekFreshOp(key, now) =>
      if exists e :: e in es && e.key == key && IsFresh(e.value, now) then Some(key) else None
    case _ => None
  }

  /** The number of hits of a run. */
  ghost function Hits<K, V>(c: Config, ops: seq<Op<K, V>>): nat {
    if ops == [] then 0
    else
      var before := ops[..|ops| - 1];
      Hits(c, before) + if HitKey(Run(c, before).entries, ops[|ops| - 1]).Some? then 1 else 0
  }

  lemma HitKeyFound<K, V>(es: seq<Entry<K, V>>, op: Op<K, V>)
    requires Distinct(es)
    ensures op.GetOp? ==> (HitKey(es, op).Some? <==> Lookup(es, op.key).Some?)
    ensures op.PeekFreshOp? ==>
              (HitKey(es, op).Some? <==> Lookup(es, op.key).Some? && IsFresh(Lookup(es, op.key).value.value, op.now))
    ensures HitKey(es, op).Some? ==> (op.GetOp? || op.PeekFreshOp?) && HitKey(es, op) == Some(op.key)
  {
    if op.GetOp? || op.PeekFreshOp? {
      forall e | e in es && e.key == op.key ensures Lookup(es, op.key) == Some(e) {
        LookupIff(es, e);
      }
    }
  }

  /** One operation in terms of its hit. */
  lemma ApplyHit<K, V>(c: Config, s: Lru<K, V>, op: Op<K, V>)
    requires Distinct(s.entries)
    ensures var k := HitKey(s.entries, op);
            && (k.Some? ==> Apply(c, s, op) == Hit(c, s, k.value))
            && (k == None ==> Apply(c, s, op).hits == s.hits)
            && (k == None && (op.GetOp? || op.PeekOp? || op.PeekFreshOp?) ==> Apply(c, s, op) == s)
  {
    HitKeyFound(s.entries, op);
    hide Hit, Lookup, IsFresh;
  }

  /** The counter of the store counts the hits of the run, up to 2^64, unless recency is exact. */
  lemma {:induction false} HitsCounted<K, V>(c: Config, ops: seq<Op<K, V>>)
    requires 0 < c.cap
    ensures Run(c, ops).hits == if c.sample <= 1 then 0 else Hits(c, ops) % TWO_TO_64
  {
    if ops != [] {
      var before, op := ops[..|ops| - 1], ops[|ops| - 1];
      HitsCounted(c, before);
      RunKeepsLimits(c, before);
      ApplyHit(c, Run(c, before), op);
      hide HitKey, Apply, Touch;
      CountNext(Hits(c, before));
    }
  }

  lemma CountNext(n: nat)
    ensures (n % TWO_TO_64 + 1) % TWO_TO_64 == (n + 1) % TWO_TO_64
  {
  }

  lemma HitNumber<K, V>(c: Config, ops: seq<Op<K, V>>, op: Op<K, V>)
    requires 0 < c.cap && HitKey(Run(c, ops).entries, op).Some?
    ensures 1 < c.sample ==> Hits(c, ops + [op]) % TWO_TO_64 == (Run(c, ops).hits + 1) % TWO_TO_64
  {
    hide HitKey, Run, Hits;
    HitsCounted(c, ops);
    HitsNext(c, ops, op);
    CountNext(Hits(c, ops));
  }

  lemma HitMoves<K, V>(c: Config, s: Lru<K, V>, i: nat, h: nat)
    requires Distinct(s.entries) && i < |s.entries| && (1 < c.sample ==> h % TWO_TO_64 == (s.hits + 1) % TWO_TO_64)
    ensures var es := s.entries;
            Hit(c, s, es[i].key).entries ==
            if c.sample <= 1 || h % TWO_TO_64 % c.sample == 0 then es[..i] + es[i + 1..] + [es[i]] else es
  {
    TouchAt(s.entries, i);
    hide Touch, Lookup;
  }

  /** On every run, a hit of the entry at position i that is the h-th hit of the run makes it the most
      recent one exactly if the sampling interval divides h, taken modulo 2^64, and leaves the order
      alone otherwise. */
  lemma SampledRecency<K, V>(c: Config, ops: seq<Op<K, V>>, op: Op<K, V>, i: nat)
    requires 0 < c.cap && i < |Run(c, ops).entries|
    requires HitKey(Run(c, ops).entries, op) == Some(Run(c, ops).entries[i].key)
    ensures var es, h := Run(c, ops).entries, Hits(c, ops + [op]);
            Run(c, ops + [op]).entries ==
            if c.sample <= 1 || h % TWO_TO_64 % c.sample == 0 then es[..i] + es[i + 1..] + [es[i]] else es
  {
    hide HitKey, Apply, Run, Hit, Hits;
    var s := Run(c, ops);
    RunKeepsLimits(c, ops);
    Follow(c, ops, op);
    ApplyHit(c, s, op);
    HitNumber(c, ops, op);
    HitMoves(c, s, i, Hits(c, ops + [op]));
  }

  /** Reads that hit nothing, and `Peek`, leave the order alone on every run. */
  lemma OtherReads<K, V>(c: Config, ops: seq<Op<K, V>>, op: Op<K, V>)
    requires 0 < c.cap && HitKey(Run(c, ops).entries, op) == None && (op.GetOp? || op.PeekOp? || op.PeekFreshOp?)
    ensures Run(c, ops + [op]) == Run(c, ops)
  {
    RunKeepsLimits(c, ops);
    Follow(c, ops, op);
    ApplyHit(c, Run(c, ops), op);
  }

  lemma HitsNext<K, V>(c: Config, ops: seq<Op<K, V>>, op: Op<K, V>)
    ensures Hits(c, ops + [op]) == Hits(c, ops) + if HitKey(Run(c, ops).entries, op).Some? then 1 else 0
  {
    assert (ops + [op])[..|ops|] == ops;
  }
}
