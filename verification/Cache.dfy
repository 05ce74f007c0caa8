/** The cache of cache.go over the LRU store, run by one caller at a time. Flights that other callers
    have started may be in progress; a call that has to wait for one says so. */
module Cache {
  import opened Envelope
  import opened Flights
  import opened FlightRegistry
  import opened LruSpec
  import opened LruStore
  import opened CacheSpec
  import Engine

  /** How a call ends: it returns, or it waits for a flight and settles its outcome with `fallback`. */
  datatype Ending<V, E, P> =
    | Returns(outcome: Outcome<V, E, P>)
    | Waits(flight: FlightObject<V, E, P>, fallback: Option<V>)

  class Cache<K(==), V, E, P> {
    const store: Store<K, V>
    const registry: Registry<K, V, E, P>
    const config: Engine.Config

    /** The store is in order and has at least one slot. */
    ghost predicate Ready()
      reads store, store.elements
    {
      store.Valid() && 0 < store.cap
    }

    /** Besides, the registry is. */
    ghost predicate Open()
      reads store, store.elements, registry
    {
      Ready() && registry.Valid()
    }

    ghost function State(): Lru<K, V>
      reads store, store.elements
      requires Ready()
    {
      store.State()
    }

    constructor (store: Store<K, V>, config: Engine.Config)
      requires store.Valid() && 0 < store.cap
      ensures Open() && this.store == store && this.config == config
      ensures fresh(registry) && registry.flights == map[]
    {
      this.store := store;
      this.config := config;
      registry := new Registry();
    }

    /** Seal the value and write it. */
    method Set(key: K, value: V, now: Time)
      requires Ready()
      modifies store, store.elements
      ensures Ready()
      ensures State() ==
                if config.bypass then old(State())
                else var e := Seal(config.policy, value, now);
                     Put(store.Config(), old(State()), Entry(key, e, store.entryBytes(key, e)))
    {
      hide Store.Valid, Store.State;
      if config.bypass {
        return;
      }
      var freshUntil, staleUntil := ZERO_TIME, ZERO_TIME;
      if !config.policy.noExpiration {
        freshUntil := now + config.policy.ttl;
        if config.policy.staleTTL > 0 {
          staleUntil := freshUntil + config.policy.staleTTL;
        }
      }
      var panicked := store.Set(key, Stored(value, now, freshUntil, staleUntil, config.policy.noExpiration, "", []));
    }

    /** The value of a fresh entry; a stale or expired entry is a miss. */
    method Get(key: K, now: Time) returns (r: Option<V>)
      requires Ready()
      modifies store, store.elements
      ensures Ready()
      ensures State() ==
                if config.bypass then old(State()) else PeekFresh(store.Config(), old(State()), key, now)
      ensures var found := Value(old(State()), key);
              r == if !config.bypass && found.Some? && IsFresh(found.value, now) then Some(found.value.value) else None
    {
      hide Store.Valid, Store.State;
      if config.bypass {
        return None;
      }
      r := store.PeekFreshValue(key, now);
      if r.None? {
        var entry := store.Peek(key);
        if entry.Some? && IsFresh(entry.value, now) {
          r := Some(entry.value.value);
        }
      }
    }

    method Delete(key: K)
      requires Ready()
      modifies store, store.elements
      ensures Ready() && State() == LruSpec.Delete(old(State()), key)
    {
      hide Store.Valid, Store.State;
      store.Delete(key);
    }

    method Clear()
      requires Ready()
      modifies store, store.elements
      ensures Ready() && State() == Lru([], old(State()).hits)
    {
      hide Store.Valid, Store.State;
      store.Clear();
    }

    /** The function that the leader of a flight runs. */
    method Recheck(key: K, env: Env<V, E, P>) returns (o: Outcome<V, E, P>)
      requires Ready() && !config.bypass
      modifies store, store.elements
      ensures Ready()
      ensures (State(), o) == Recompute(config, store.Config(), old(State()), key, env, store.entryBytes)
    {
      hide Store.Valid, Store.State, Put, Hit;
      var known := store.PeekFreshValue(key, env.inner);
      if known.Some? {
        return Ok(known.value);
      }
      var entry := store.Peek(key);
      if entry.Some? {
        var e := entry.value;
        if IsFresh(e, env.inner) {
          return Ok(e.value);
        }
      }
      if env.outcome.Ok? {
        Set(key, env.outcome.value, env.written);
      }
      return env.outcome;
    }

    /** `finishFlight`, or `finishPanickedFlight` for a panic: the outcome is published, the key given
        up and the waiters released. */
    method EndFlight(key: K, f: FlightObject<V, E, P>, ghost id: nat, o: Outcome<V, E, P>)
      requires registry.Valid() && id < |registry.started| && registry.started[id] == f && !f.panicked
      modifies registry, f
      ensures registry.Valid() && registry.flights == old(registry.flights) - {key}
      ensures registry.View() == Release(Unregister(Publish(old(registry.View()), id, o), key), id)
    {
      match o
      case Ok(v) => registry.FinishFlight(key, f, id, v, None);
      case Err(v, e) => registry.FinishFlight(key, f, id, v, Some(e));
      case Panic(p) => registry.FinishPanickedFlight(key, f, id, p);
    }

    /** The flight table after thread `me` has led a flight to its end. */
    ghost function Flown(table: Table<K, V, E, P>, key: K, me: Tid, o: Outcome<V, E, P>): Table<K, V, E, P> {
      var id := |table.flights|;
      Release(Unregister(Publish(Start(table, key, me), id, o), key), id)
    }

    /** `do`: join the flight in progress for the key, or lead one and end it whatever happens. */
    method Do(key: K, env: Env<V, E, P>, fallback: Option<V>, ghost me: Tid) returns (r: Ending<V, E, P>)
      requires Open() && !config.bypass
      modifies store, store.elements, registry
      ensures Open() && registry.flights == old(registry.flights)
      ensures key in old(registry.flights) ==>
                r == Waits(old(registry.flights)[key], fallback) && State() == old(State())
                && registry.View() == old(registry.View())
      ensures key !in old(registry.flights) ==>
                r.Returns?
                && (State(), r.outcome) == Recompute(config, store.Config(), old(State()), key, env, store.entryBytes)
                && registry.View() == Flown(old(registry.View()), key, me, r.outcome)
    {
      hide Store.Valid, Store.State, Recompute, Refill, Put, Registry.Valid, Registry.View, Start, Publish, Unregister;
      var f, leader := registry.StartFlight(key, me);
      if !leader {
        return Waits(f, fallback);
      }
      ghost var id := |registry.started| - 1;
      var o := Recheck(key, env);
      EndFlight(key, f, id, o);
      return Returns(o);
    }

    /** The goroutine of a refresh that does not panic. */
    method RunRefresh(key: K, env: Env<V, E, P>, f: FlightObject<V, E, P>, ghost id: nat)
      requires Open() && !config.bypass && !env.outcome.Panic?
      requires id < |registry.started| && registry.started[id] == f && !f.panicked
      modifies store, store.elements, registry, f
      ensures Open() && registry.flights == old(registry.flights) - {key}
      ensures registry.View() == Release(Unregister(Publish(old(registry.View()), id, env.outcome), key), id)
      ensures State() == Refill(config, store.Config(), old(State()), key, env, store.entryBytes).0
    {
      hide Store.Valid, Store.State, Registry.Valid, Registry.View, Put;
      if env.outcome.Ok? {
        Set(key, env.outcome.value, env.written);
      }
      EndFlight(key, f, id, env.outcome);
    }

    /** A background refresh, run to its end, unless a flight is in progress for the key. A panic in it
        is not recovered. */
    method Refresh(key: K, env: Env<V, E, P>, ghost me: Tid) returns (crashed: bool)
      requires Open() && !config.bypass
      modifies store, store.elements, registry
      ensures Open() && (!crashed ==> registry.flights == old(registry.flights))
      ensures crashed <==> key !in old(registry.flights) && env.outcome.Panic?
      ensures key in old(registry.flights) ==> State() == old(State()) && registry.View() == old(registry.View())
      ensures key !in old(registry.flights) ==>
                State() == Refill(config, store.Config(), old(State()), key, env, store.entryBytes).0
      ensures key !in old(registry.flights) && !crashed ==>
                registry.View() == Flown(old(registry.View()), key, me, env.outcome)
    {
      hide Store.Valid, Store.State, Registry.Valid, Registry.View, Put, Seal;
      var f, leader := registry.StartFlight(key, me);
      if !leader {
        return false;
      }
      ghost var id := |registry.started| - 1;
      if env.outcome.Panic? {
        return true;
      }
      RunRefresh(key, env, f, id);
      return false;
    }

    /** With no flight in progress for the key: `Call`. During one nothing is computed or written. A fresh
        entry is returned at once, and so is a stale one, whatever becomes of the flight, unless the
        cache has neither a stale window nor stale-on-error; any other call waits, and falls back on an
        expired entry exactly with stale-on-error. `crashed`: the call returned, but the refresh it
        started panicked. */
    method GetOrCompute(key: K, env: Env<V, E, P>, ghost me: Tid) returns (r: Ending<V, E, P>, crashed: bool)
      requires Open()
      modifies store, store.elements, registry
      ensures Open() && (!crashed ==> registry.flights == old(registry.flights))
      ensures key !in old(registry.flights) ==>
                r.Returns?
                && (State(), r.outcome) == Call(config, store.Config(), old(State()), key, env, store.entryBytes)
      ensures config.bypass ==> r == Returns(env.outcome) && State() == old(State())
      ensures key in old(registry.flights) ==> registry.View() == old(registry.View())
      ensures key in old(registry.flights) && !config.bypass ==>
                var found := Value(old(State()), key);
                if found.None? then r == Waits(old(registry.flights)[key], None) && State() == old(State())
                else
                  match Envelope.State(found.value, env.now)
                  case Fresh =>
                    r == Returns(Ok(found.value.value)) && State() == Hit(store.Config(), old(State()), key)
                  case Stale =>
                    && State() == old(State())
                    && r == if config.policy.staleTTL != 0 || config.keepStale then Returns(Ok(found.value.value))
                            else Waits(old(registry.flights)[key], None)
                  case Expired =>
                    && State() == old(State())
                    && r == Waits(old(registry.flights)[key],
                                  if config.keepStale then Some(found.value.value) else None)
      ensures crashed ==> key !in old(registry.flights) && env.outcome.Panic? && State() == old(State())
    {
      hide Store.Valid, Store.State, Recompute, Registry.Valid, Registry.View, Flown, Hit;
      crashed := false;
      if config.bypass {
        return Returns(env.outcome), false;
      }
      var known := store.PeekFreshValue(key, env.now);
      if known.Some? {
        return Returns(Ok(known.value)), false;
      }
      if config.policy.staleTTL == 0 && !config.keepStale {
        var f := registry.Lookup(key);
        if f != null {
          return Waits(f, None), false;
        }
      }
      var entry := store.Peek(key);
      if entry.Some? {
        var e := entry.value;
        match Envelope.State(e, env.now) {
          case Fresh => return Returns(Ok(e.value)), false;
          case Stale =>
            crashed := Refresh(key, env, me);
            return Returns(Ok(e.value)), crashed;
          case Expired =>
        }
      }
      var fallback := if entry.Some? && config.keepStale then Some(entry.value.value) else None;
      r := Do(key, env, fallback, me);
      if r.Returns? && r.outcome.Err? && entry.Some? && config.keepStale {
        r := Returns(Ok(entry.value.value));
      }
    }
  }
}
