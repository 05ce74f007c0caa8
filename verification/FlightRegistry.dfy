/** The flight objects and the registry of cache.go: the critical sections that the transition
    system takes as atomic steps, proved equal to those steps. */
module FlightRegistry {
  import opened Envelope
  import opened Flights

  /** `value` is unset until the flight is finished; `pending` is the wait group's counter. */
  class FlightObject<V, E, P> {
    var value: Option<V>
    var err: Option<E>
    var panicValue: Option<P>
    var panicked: bool
    var pending: int

    constructor ()
      ensures value == None && err == None && panicValue == None && !panicked && pending == 1
    {
      value, err, panicValue, panicked, pending := None, None, None, false, 1;
    }

    /** The outcome written so far. */
    ghost function Result(): Option<Outcome<V, E, P>>
      reads this
    {
      if panicked then
        if panicValue.Some? then Some(Panic(panicValue.value)) else None
      else if value.None? then None
      else if err.Some? then Some(Err(value.value, err.value))
      else Some(Ok(value.value))
    }

    /** `wait`, once the counter has reached zero: re-panic with the panic value of the flight, or
        return its value and error. */
    method Wait() returns (o: Outcome<V, E, P>)
      requires pending == 0 && Result().Some?
      ensures Result() == Some(o)
    {
      if panicked {
        return Panic(panicValue.value);
      }
      return if err.Some? then Err(value.value, err.value) else Ok(value.value);
    }
  }

  class Registry<K(==), V, E, P> {
    var flights: map<K, FlightObject<V, E, P>>

    // All flights ever started, with their keys and leaders, and where the registered ones are.
    ghost var started: seq<FlightObject<V, E, P>>
    ghost var keys: seq<K>
    ghost var leaders: seq<Tid>
    ghost var ids: map<K, nat>

    ghost predicate Valid()
      reads this
    {
      && |keys| == |leaders| == |started|
      && (forall i, j | 0 <= i < j < |started| :: started[i] != started[j])
      && ids.Keys == flights.Keys
      && forall k | k in ids :: ids[k] < |started| && started[ids[k]] == flights[k]
    }

    ghost function View(): (view: Table<K, V, E, P>)
      reads this, started
      requires Valid()
      ensures |view.flights| == |started| && view.registered == ids
    {
      Table(ids, seq(|started|, i requires 0 <= i < |started| && Valid() reads this, started =>
        Flight(keys[i], leaders[i], started[i].Result(), started[i].pending)))
    }

    constructor ()
      ensures Valid() && View() == Table(map[], []) && started == [] && flights == map[]
    {
      flights, started, keys, leaders, ids := map[], [], [], [], map[];
    }

    /** Join the flight that is registered for the key, or start and register one. */
    method StartFlight(key: K, ghost leader: Tid) returns (f: FlightObject<V, E, P>, isLeader: bool)
      requires Valid()
      modifies this
      ensures Valid() && (isLeader <==> key !in old(flights))
      ensures !isLeader ==> f == old(flights)[key] && View() == old(View()) && flights == old(flights)
      ensures isLeader ==>
                && View() == Start(old(View()), key, leader)
                && fresh(f) && started == old(started) + [f] && f.pending == 1 && f.Result() == None && !f.panicked
                && flights == old(flights)[key := f]
    {
      if key in flights {
        return flights[key], false;
      }
      f := new FlightObject();
      flights := flights[key := f];
      ids := ids[key := |started|];
      started, keys, leaders := started + [f], keys + [key], leaders + [leader];
      isLeader := true;
    }

    /** The lookup of `waitForFlight`. */
    method Lookup(key: K) returns (f: FlightObject?<V, E, P>)
      requires Valid()
      ensures f == null <==> key !in View().registered
      ensures f != null ==> f == started[View().registered[key]] && key in flights && f == flights[key]
      ensures f == null ==> key !in flights
    {
      f := if key in flights then flights[key] else null;
    }

    method FinishFlight(key: K, f: FlightObject<V, E, P>, ghost id: nat, value: V, err: Option<E>)
      requires Valid() && id < |started| && started[id] == f && !f.panicked
      modifies this, f
      ensures Valid() && started == old(started) && flights == old(flights) - {key}
      ensures var o := if err.Some? then Err(value, err.value) else Ok(value);
              View() == Release(Unregister(Publish(old(View()), id, o), key), id)
    {
      f.value := Some(value);
      f.err := err;
      flights := flights - {key};
      ids := ids - {key};
      f.pending := f.pending - 1;
    }

    method FinishPanickedFlight(key: K, f: FlightObject<V, E, P>, ghost id: nat, panicValue: P)
      requires Valid() && id < |started| && started[id] == f
      modifies this, f
      ensures Valid() && started == old(started) && flights == old(flights) - {key}
      ensures View() == Release(Unregister(Publish(old(View()), id, Panic(panicValue)), key), id)
    {
      f.panicValue := Some(panicValue);
      f.panicked := true;
      flights := flights - {key};
      ids := ids - {key};
      f.pending := f.pending - 1;
    }
  }
}
