/** The unbounded map that memoizers use by default (direct_store.go). Its operations are the store
    steps that the transition system takes, and none of them can fail. */
module DirectStore {
  import opened Envelope
  import opened Words
  import Engine

  class Store<V> {
    var entries: map<Word, Stored<V>>

    constructor ()
      ensures entries == map[]
    {
      entries := map[];
    }

    method Get(key: Word) returns (r: Option<Stored<V>>)
      ensures r.Some? <==> key in entries
      ensures r.Some? ==> r.value == entries[key]
    {
      r := if key in entries then Some(entries[key]) else None;
    }

    /** The fresh-value path agrees with reading the entry and looking at its state. */
    method PeekFreshValue(key: Word, now: Time) returns (r: Option<V>)
      ensures r.Some? <==> Engine.FreshAt(entries, key, now)
      ensures r.Some? ==> r.value == entries[key].value
    {
      if key !in entries || State(entries[key], now) != Fresh {
        return None;
      }
      r := Some(entries[key].value);
    }

    method Set(key: Word, value: Stored<V>)
      modifies this
      ensures entries == old(entries)[key := value]
    {
      entries := entries[key := value];
    }

    method Delete(key: Word)
      modifies this
      ensures entries == old(entries) - {key}
    {
      entries := entries - {key};
    }

    method Clear()
      modifies this
      ensures entries == map[]
    {
      entries := map[];
    }
  }
}
