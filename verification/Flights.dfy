/** The single-flight table of cache.go: which key has a flight in progress, and what became of
    every flight ever started. A flight is named by its position in the history. */
module Flights {
  import opened Envelope

  type Tid = nat

  /** How a computation ends: a value, an error (with the value returned beside it), or a panic. */
  datatype Outcome<+V, +E, +P> = Ok(value: V) | Err(partial: V, error: E) | Panic(reason: P)

  /** `pending` is the counter of the flight's wait group; waiters are released at zero. `leader`
      is the thread that started it. */
  datatype Flight<K, V, E, P> = Flight(key: K, leader: Tid, outcome: Option<Outcome<V, E, P>>, pending: int)

  datatype Table<K, V, E, P> = Table(registered: map<K, nat>, flights: seq<Flight<K, V, E, P>>)

  /** `startFlight` when no flight for the key is registered; the new flight is number |flights|. */
  function Start<K, V, E, P>(t: Table<K, V, E, P>, key: K, leader: Tid): Table<K, V, E, P> {
    Table(t.registered[key := |t.flights|], t.flights + [Flight(key, leader, None, 1)])
  }

  /** The three steps of `finishFlight` and `finishPanickedFlight`: write the outcome, then take
      the key out of the registry under the lock, then release the waiters. */
  function Publish<K, V, E, P>(t: Table<K, V, E, P>, f: nat, o: Outcome<V, E, P>): Table<K, V, E, P>
    requires f < |t.flights|
  {
    t.(flights := t.flights[f := t.flights[f].(outcome := Some(o))])
  }

  function Unregister<K, V, E, P>(t: Table<K, V, E, P>, key: K): Table<K, V, E, P> {
    t.(registered := t.registered - {key})
  }

  function Release<K, V, E, P>(t: Table<K, V, E, P>, f: nat): Table<K, V, E, P>
    requires f < |t.flights|
  {
    t.(flights := t.flights[f := t.flights[f].(pending := t.flights[f].pending - 1)])
  }
}
