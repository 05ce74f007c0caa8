/** One call of the cache at a time, over the LRU store (cache.go). `Reference` says in one place
    what a call returns and writes; the operations are proved against it. */
module CacheSpec {
  import opened Envelope
  import opened Flights
  import opened LruSpec
  import opened LruTheorems
  import opened Sets
  import Engine

  /** What the surroundings decide about one call: the three clock readings it may make and how the
      compute function, if called, ends. */
  datatype Env<V, E, P> = Env(now: Time, inner: Time, written: Time, outcome: Outcome<V, E, P>)

  // ---------- the code ----------

  /** The function that the leader of a flight runs: look again, then compute and store. */
  function Recompute<K(==), V, E, P>(c: Engine.Config, lc: Config, s: Lru<K, V>, key: K, env: Env<V, E, P>,
                                     cost: (K, Stored<V>) -> nat): (Lru<K, V>, Outcome<V, E, P>)
  {
    var found := Lookup(s.entries, key);
    if found.Some? && IsFresh(found.value.value, env.inner) then
      (PeekFresh(lc, s, key, env.inner), Ok(found.value.value.value))
    else Refill(c, lc, s, key, env, cost)
  }

  /** Compute and, if that succeeds, store: also what a background refresh does. */
  function Refill<K(==), V, E, P>(c: Engine.Config, lc: Config, s: Lru<K, V>, key: K, env: Env<V, E, P>,
                                  cost: (K, Stored<V>) -> nat): (Lru<K, V>, Outcome<V, E, P>)
  {
    if env.outcome.Ok? then
      var e := Seal(c.policy, env.outcome.value, env.written);
      (Put(lc, s, Entry(key, e, cost(key, e))), env.outcome)
    else (s, env.outcome)
  }

  /** `GetOrCompute`, with a refresh it may start run to its end right after. */
  function Call<K(==), V, E, P>(c: Engine.Config, lc: Config, s: Lru<K, V>, key: K, env: Env<V, E, P>,
                                cost: (K, Stored<V>) -> nat): (Lru<K, V>, Outcome<V, E, P>)
  {
    if c.bypass then (s, env.outcome)
    else
      var found := Lookup(s.entries, key);
      if found.None? then Recompute(c, lc, s, key, env, cost)
      else
        match State(found.value.value, env.now)
        case Fresh => (PeekFresh(lc, s, key, env.now), Ok(found.value.value.value))
        case Stale => (Refill(c, lc, s, key, env, cost).0, Ok(found.value.value.value))
        case Expired =>
          var (s', o) := Recompute(c, lc, s, key, env, cost);
          (s', Engine.Settle(o, if c.keepStale then Some(found.value.value.value) else None))
  }

  // ---------- the reference ----------

  /** What a call returns, from the stored envelope alone. */
  function Answer<V, E, P>(c: Engine.Config, found: Option<Stored<V>>, env: Env<V, E, P>): Outcome<V, E, P> {
    if !c.bypass && found.Some? && (State(found.value, env.now) != Expired || IsFresh(found.value, env.inner))
    then Ok(found.value.value)
    else Engine.Settle(env.outcome, if !c.bypass && c.keepStale && found.Some? then Some(found.value.value) else None)
  }

  /** Whether a call, or the refresh it starts, runs the compute function. */
  predicate Computes<V, E, P>(c: Engine.Config, found: Option<Stored<V>>, env: Env<V, E, P>) {
    || c.bypass
    || found.None?
    || State(found.value, env.now) == Stale
    || (State(found.value, env.now) == Expired && !IsFresh(found.value, env.inner))
  }

  /** Whether a call is a fresh hit. */
  predicate HitsFresh<V, E, P>(c: Engine.Config, found: Option<Stored<V>>, env: Env<V, E, P>) {
    && !c.bypass && found.Some?
    && (IsFresh(found.value, env.now) || (State(found.value, env.now) == Expired && IsFresh(found.value, env.inner)))
  }

  /** The store after a call: a call writes exactly when it computes successfully, the sealed value
      under its own key; it touches recency exactly when it is a fresh hit; and otherwise it leaves
      the store untouched, hit counter included. */
  function After<K(==), V, E, P>(c: Engine.Config, lc: Config, s: Lru<K, V>, key: K, found: Option<Stored<V>>,
                                 env: Env<V, E, P>, cost: (K, Stored<V>) -> nat): Lru<K, V>
  {
    if !c.bypass && Computes(c, found, env) && env.outcome.Ok? then
      var e := Seal(c.policy, env.outcome.value, env.written);
      Put(lc, s, Entry(key, e, cost(key, e)))
    else if HitsFresh(c, found, env) then Hit(lc, s, key)
    else s
  }

  lemma CallIsReference<K, V, E, P>(c: Engine.Config, lc: Config, s: Lru<K, V>, key: K, env: Env<V, E, P>,
                                    cost: (K, Stored<V>) -> nat)
    ensures Call(c, lc, s, key, env, cost) ==
              (After(c, lc, s, key, Value(s, key), env, cost), Answer(c, Value(s, key), env))
  {
  }

  /** KeepStaleOnError makes a difference exactly for a failing computation behind an entry that has
      expired, and not become fresh meanwhile; a stale entry is served with or without it. */
  lemma KeepStaleMattersWhenExpired<V, E, P>(c: Engine.Config, found: Option<Stored<V>>, env: Env<V, E, P>)
    ensures Answer(c.(keepStale := true), found, env) != Answer(c.(keepStale := false), found, env) <==>
              !c.bypass && env.outcome.Err? && found.Some? && State(found.value, env.now) == Expired
              && !IsFresh(found.value, env.inner)
  {
  }

  // ---------- the plain form ----------

  /** `GetOrCompute` over a store that only has `Get`, such as a map. */
  function PlainCall<K(==), V, E, P>(c: Engine.Config, m: map<K, Stored<V>>, key: K, env: Env<V, E, P>)
    : (map<K, Stored<V>>, Outcome<V, E, P>)
  {
    if c.bypass then (m, env.outcome)
    else if key !in m then PlainRecompute(c, m, key, env)
    else
      match State(m[key], env.now)
      case Fresh => (m, Ok(m[key].value))
      case Stale => (PlainRefill(c, m, key, env).0, Ok(m[key].value))
      case Expired =>
        var (m', o) := PlainRecompute(c, m, key, env);
        (m', Engine.Settle(o, if c.keepStale then Some(m[key].value) else None))
  }

  function PlainRecompute<K(==), V, E, P>(c: Engine.Config, m: map<K, Stored<V>>, key: K, env: Env<V, E, P>)
    : (map<K, Stored<V>>, Outcome<V, E, P>)
  {
    if key in m && IsFresh(m[key], env.inner) then (m, Ok(m[key].value)) else PlainRefill(c, m, key, env)
  }

  function PlainRefill<K(==), V, E, P>(c: Engine.Config, m: map<K, Stored<V>>, key: K, env: Env<V, E, P>)
    : (map<K, Stored<V>>, Outcome<V, E, P>)
  {
    if env.outcome.Ok? then (m[key := Seal(c.policy, env.outcome.value, env.written)], env.outcome)
    else (m, env.outcome)
  }

  /** One use of a cache. */
  datatype Use<K, V, E, P> =
    | Calling(key: K, env: Env<V, E, P>)
    | Setting(key: K, value: V, now: Time)
    | Getting(key: K, now: Time)
    | Deleting(key: K)
    | Clearing

  /** What a use returns: the outcome of a call, what `Get` finds, or nothing. */
  datatype Reply<V, E, P> = Ended(outcome: Outcome<V, E, P>) | Found(value: Option<V>) | Nothing

  /** A use over the LRU store, by the fast path. */
  function FastUse<K(==), V, E, P>(c: Engine.Config, lc: Config, s: Lru<K, V>, use: Use<K, V, E, P>,
                                   cost: (K, Stored<V>) -> nat): (Lru<K, V>, Reply<V, E, P>)
  {
    match use
    case Calling(key, env) =>
      var (s', o) := Call(c, lc, s, key, env, cost);
      (s', Ended(o))
    case Setting(key, value, now) =>
      var e := Seal(c.policy, value, now);
      (if c.bypass then s else Put(lc, s, Entry(key, e, cost(key, e))), Nothing)
    case Getting(key, now) =>
      var found := Lookup(s.entries, key);
      if !c.bypass && found.Some? && IsFresh(found.value.value, now) then
        (PeekFresh(lc, s, key, now), Found(Some(found.value.value.value)))
      else (s, Found(None))
    case Deleting(key) => (LruSpec.Delete(s, key), Nothing)
    case Clearing => (s.(entries := []), Nothing)
  }

  /** The same over a map, by the plain path. */
  function PlainUse<K(==), V, E, P>(c: Engine.Config, m: map<K, Stored<V>>, use: Use<K, V, E, P>)
    : (map<K, Stored<V>>, Reply<V, E, P>)
  {
    match use
    case Calling(key, env) =>
      var (m', o) := PlainCall(c, m, key, env);
      (m', Ended(o))
    case Setting(key, value, now) => (if c.bypass then m else m[key := Seal(c.policy, value, now)], Nothing)
    case Getting(key, now) => (m, Found(if !c.bypass && Engine.FreshAt(m, key, now) then Some(m[key].value) else None))
    case Deleting(key) => (m - {key}, Nothing)
    case Clearing => (map[], Nothing)
  }

  /** A sequence of uses over the LRU store, and the replies. */
  function FastRun<K(==), V, E, P>(c: Engine.Config, lc: Config, uses: seq<Use<K, V, E, P>>,
                                   cost: (K, Stored<V>) -> nat): (Lru<K, V>, seq<Reply<V, E, P>>)
  {
    if uses == [] then (Lru([], 0), [])
    else
      var (s, rs) := FastRun(c, lc, uses[..|uses| - 1], cost);
      var (s', r) := FastUse(c, lc, s, uses[|uses| - 1], cost);
      (s', rs + [r])
  }

  /** The same uses over a map. */
  function PlainRun<K(==), V, E, P>(c: Engine.Config, uses: seq<Use<K, V, E, P>>)
    : (map<K, Stored<V>>, seq<Reply<V, E, P>>)
  {
    if uses == [] then (map[], [])
    else
      var (m, rs) := PlainRun(c, uses[..|uses| - 1]);
      var (m', r) := PlainUse(c, m, uses[|uses| - 1]);
      (m', rs + [r])
  }

  /** The LRU store holds exactly what the map holds. */
  ghost predicate Agrees<K(!new), V>(s: Lru<K, V>, m: map<K, Stored<V>>) {
    forall k :: Value(s, k) == if k in m then Some(m[k]) else None
  }

  /** The uses write no other keys than these. */
  ghost predicate Writes<K, V, E, P>(uses: seq<Use<K, V, E, P>>, keys: set<K>) {
    forall i | 0 <= i < |uses| && (uses[i].Calling? || uses[i].Setting?) :: uses[i].key in keys
  }

  /** With room for all keys in use, setting one of them evicts nothing. */
  lemma RoomForAll<K(!new), V>(lc: Config, s: Lru<K, V>, e: Entry<K, V>, keys: set<K>, m: map<K, Stored<V>>)
    requires WithinLimits(lc, s.entries) && lc.maxBytes == 0
    requires Keys(s.entries) <= keys && e.key in keys && |keys| <= lc.cap
    requires Agrees(s, m)
    ensures Agrees(Put(lc, s, e), m[e.key := e.value])
    ensures Keys(Put(lc, s, e).entries) <= keys
  {
    var base := Drop(s.entries, {e.key});
    PutIsEvictThenAppend(lc, s, e);
    DropMembers(s.entries, {e.key});
    DropDistinct(s.entries, {e.key});
    KeysCount(base);
    FewerThan(Keys(base), keys, e.key);
    assert MakeRoom(lc, base, e.cost) == base;
    var m' := m[e.key := e.value];
    forall k ensures Value(Put(lc, s, e), k) == if k in m' then Some(m'[k]) else None {
      LookupDrop(s.entries, {e.key}, k);
      LookupAppend(base, e, k);
    }
  }

  /** The plain run when the map may forget: `lost[i]` are the keys that vanish after use i. */
  function ForgetfulRun<K(==), V, E, P>(c: Engine.Config, uses: seq<Use<K, V, E, P>>, lost: seq<set<K>>)
    : (map<K, Stored<V>>, seq<Reply<V, E, P>>)
    requires |lost| == |uses|
  {
    if uses == [] then (map[], [])
    else
      var n := |uses| - 1;
      var (m, rs) := ForgetfulRun(c, uses[..n], lost[..n]);
      var (m', r) := PlainUse(c, m, uses[n]);
      (m' - lost[n], rs + [r])
  }

  lemma {:induction false} ForgettingNothing<K, V, E, P>(
      c: Engine.Config, uses: seq<Use<K, V, E, P>>, lost: seq<set<K>>)
    requires |lost| == |uses| && forall i | 0 <= i < |lost| :: lost[i] == {}
    ensures ForgetfulRun(c, uses, lost) == PlainRun(c, uses)
  {
    if uses != [] {
      var n := |uses| - 1;
      ForgettingNothing(c, uses[..n], lost[..n]);
      var m := PlainUse(c, PlainRun(c, uses[..n]).0, uses[n]).0;
      assert m - {} == m;
    }
  }

  /** On every sequential run of calls, `Set`s, `Get`s, `Delete`s and `Clear`s, in a store of any size,
      the fast path over the LRU store and the plain path over a map that forgets what the store evicts
      return the same and hold the same entries. Only calls and `Set`s evict, other keys than their own,
      and none if the store has room for all. */
  lemma {:induction false} FastPathIsPlain<K(!new), V, E, P>(
      c: Engine.Config, lc: Config, uses: seq<Use<K, V, E, P>>, cost: (K, Stored<V>) -> nat, keys: set<K>)
    returns (lost: seq<set<K>>)
    requires 0 < lc.cap && Writes(uses, keys)
    ensures |lost| == |uses|
    ensures forall i | 0 <= i < |uses| :: if uses[i].Calling? || uses[i].Setting? then uses[i].key !in lost[i]
                                          else lost[i] == {}
    ensures FastRun(c, lc, uses, cost).1 == ForgetfulRun(c, uses, lost).1
    ensures Agrees(FastRun(c, lc, uses, cost).0, ForgetfulRun(c, uses, lost).0)
    ensures WithinLimits(lc, FastRun(c, lc, uses, cost).0.entries)
    ensures Keys(FastRun(c, lc, uses, cost).0.entries) <= keys
    ensures lc.maxBytes == 0 && |keys| <= lc.cap ==> forall i | 0 <= i < |lost| :: lost[i] == {}
  {
    lost := [];
    if uses != [] {
      var n := |uses| - 1;
      var before := FastPathIsPlain(c, lc, uses[..n], cost, keys);
      var s, m := FastRun(c, lc, uses[..n], cost).0, ForgetfulRun(c, uses[..n], before).0;
      var now := OneUseAgrees(c, lc, s, m, uses[n], cost, keys);
      lost := before + [now];
      assert lost[..n] == before;
      hide FastUse, PlainUse, Agrees, WithinLimits, Keys;
    }
  }

  /** With room for all keys in use, nothing is forgotten. */
  lemma FastPathWithRoom<K(!new), V, E, P>(c: Engine.Config, lc: Config, uses: seq<Use<K, V, E, P>>,
                                           cost: (K, Stored<V>) -> nat, keys: set<K>)
    requires 0 < lc.cap && lc.maxBytes == 0 && Writes(uses, keys) && |keys| <= lc.cap
    ensures FastRun(c, lc, uses, cost).1 == PlainRun(c, uses).1
    ensures Agrees(FastRun(c, lc, uses, cost).0, PlainRun(c, uses).0)
  {
    var lost := FastPathIsPlain(c, lc, uses, cost, keys);
    ForgettingNothing(c, uses, lost);
  }

  lemma OneUseAgrees<K(!new), V, E, P>(c: Engine.Config, lc: Config, s: Lru<K, V>, m: map<K, Stored<V>>,
                                       use: Use<K, V, E, P>, cost: (K, Stored<V>) -> nat, keys: set<K>)
    returns (lost: set<K>)
    requires 0 < lc.cap && (use.Calling? || use.Setting? ==> use.key in keys)
    requires WithinLimits(lc, s.entries) && Keys(s.entries) <= keys && Agrees(s, m)
    ensures if use.Calling? || use.Setting? then use.key !in lost else lost == {}
    ensures var (s', r) := FastUse(c, lc, s, use, cost); var (m', q) := PlainUse(c, m, use);
            r == q && Agrees(s', m' - lost) && WithinLimits(lc, s'.entries) && Keys(s'.entries) <= keys
    ensures lc.maxBytes == 0 && |keys| <= lc.cap ==> lost == {}
  {
    lost := {};
    assert m - {} == m;
    match use
    case Calling(key, env) =>
      hide Call, PlainCall;
      lost := OneCallAgrees(c, lc, s, m, key, env, cost, keys);
    case Setting(key, value, now) =>
      if !c.bypass {
        var e := Seal(c.policy, value, now);
        lost := PutForgets(lc, s, m, Entry(key, e, cost(key, e)), keys);
      }
    case Getting(key, now) =>
      assert Value(s, key) == if key in m then Some(m[key]) else None;
      HitAgrees(lc, s, m, key, keys);
      hide Hit, Agrees, WithinLimits, Keys;
    case Deleting(key) =>
      DeleteAgrees(lc, s, m, key, keys);
      assert m - {key} - {} == m - {key};
    case Clearing =>
  }

  lemma DeleteAgrees<K(!new), V>(lc: Config, s: Lru<K, V>, m: map<K, Stored<V>>, key: K, keys: set<K>)
    requires WithinLimits(lc, s.entries) && Keys(s.entries) <= keys && Agrees(s, m)
    ensures var s' := LruSpec.Delete(s, key);
            Agrees(s', m - {key}) && WithinLimits(lc, s'.entries) && Keys(s'.entries) <= keys
  {
    DropKeepsLimits(lc, s.entries, {key});
    DropMembers(s.entries, {key});
    forall k ensures Value(LruSpec.Delete(s, key), k) == if k in m - {key} then Some((m - {key})[k]) else None {
      LookupDrop(s.entries, {key}, k);
    }
  }

  lemma OneCallAgrees<K(!new), V, E, P>(c: Engine.Config, lc: Config, s: Lru<K, V>, m: map<K, Stored<V>>, key: K,
                                        env: Env<V, E, P>, cost: (K, Stored<V>) -> nat, keys: set<K>)
    returns (lost: set<K>)
    requires 0 < lc.cap && key in keys
    requires WithinLimits(lc, s.entries) && Keys(s.entries) <= keys && Agrees(s, m)
    ensures key !in lost
    ensures var (s', r) := Call(c, lc, s, key, env, cost); var (m', q) := PlainCall(c, m, key, env);
            r == q && Agrees(s', m' - lost) && WithinLimits(lc, s'.entries) && Keys(s'.entries) <= keys
    ensures lc.maxBytes == 0 && |keys| <= lc.cap ==> lost == {}
  {
    var found := Value(s, key);
    CallIsReference(c, lc, s, key, env, cost);
    hide Call;
    lost := {};
    if !c.bypass && Computes(c, found, env) && env.outcome.Ok? {
      var v := Seal(c.policy, env.outcome.value, env.written);
      lost := PutForgets(lc, s, m, Entry(key, v, cost(key, v)), keys);
    } else {
      if HitsFresh(c, found, env) {
        HitAgrees(lc, s, m, key, keys);
      }
      assert m - {} == m;
    }
  }

  /** A set makes its own key hit, and what it evicts is forgotten. */
  lemma PutForgets<K(!new), V>(lc: Config, s: Lru<K, V>, m: map<K, Stored<V>>, e: Entry<K, V>, keys: set<K>)
    returns (lost: set<K>)
    requires 0 < lc.cap && e.key in keys
    requires WithinLimits(lc, s.entries) && Keys(s.entries) <= keys && Agrees(s, m)
    ensures e.key !in lost && WithinLimits(lc, Put(lc, s, e).entries) && Keys(Put(lc, s, e).entries) <= keys
    ensures Agrees(Put(lc, s, e), m[e.key := e.value] - lost)
    ensures lc.maxBytes == 0 && |keys| <= lc.cap ==> lost == {}
  {
    var s' := Put(lc, s, e);
    var m' := m[e.key := e.value];
    PutKeepsLimits(lc, s, e);
    lost := set k | k in m' && Value(s', k) == None;
    forall k ensures Value(s', k) == if k in m' - lost then Some((m' - lost)[k]) else None {
      PutValue(lc, s, e, k);
    }
    StepEntries(lc, s, SetOp(e));
    if lc.maxBytes == 0 && |keys| <= lc.cap {
      RoomForAll(lc, s, e, keys, m);
    }
  }

  lemma HitAgrees<K(!new), V>(lc: Config, s: Lru<K, V>, m: map<K, Stored<V>>, key: K, keys: set<K>)
    requires WithinLimits(lc, s.entries) && Keys(s.entries) <= keys && Agrees(s, m)
    ensures Agrees(Hit(lc, s, key), m)
    ensures WithinLimits(lc, Hit(lc, s, key).entries) && Keys(Hit(lc, s, key).entries) <= keys
  {
    TouchKeepsLimits(lc, s.entries, key);
    DropMembers(s.entries, {key});
    forall k ensures Value(Hit(lc, s, key), k) == Value(s, k) {
      TouchValue(s, key, k);
    }
  }
}
