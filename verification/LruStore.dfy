/** The array-backed LRU store (stores/memory/store.go), proved against `LruSpec`. */
module LruStore {
  import opened Envelope
  import opened Words
  import opened LruSpec
  import opened LruRing
  import opened LruSlots

  class Store<K(==), V> {
    var index: map<K, nat>
    const elements: array<Element<K, V>>
    var head: nat
    var len: nat
    const cap: nat
    var usedBytes: int
    var getHits: nat
    const maxBytes: nat
    const sample: nat
    const entryBytes: (K, Stored<V>) -> nat

    // The slots, taken apart, and the live slots from least to most recently used.
    ghost var payloads: seq<Option<Entry<K, V>>>
    ghost var next: seq<nat>
    ghost var prev: seq<nat>
    ghost var order: seq<nat>

    ghost predicate Mirrored()
      reads this, elements
    {
      && |payloads| == |next| == |prev| == elements.Length == cap < TWO_TO_32
      && forall p | 0 <= p < cap :: elements[p] == Assemble(payloads[p], next[p], prev[p])
    }

    ghost predicate Wired()
      reads this, elements
    {
      Mirrored() && Ring(next, prev, order, head) && AllPresent(payloads, order)
    }

    ghost predicate Valid()
      reads this, elements
    {
      && Wired()
      && len <= cap
      && Covers(order, len)
      && Packed(payloads, len)
      && Indexed(payloads, len, index)
      && getHits < TWO_TO_64
      && usedBytes == Bytes(Contents())
    }

    ghost function Contents(): seq<Entry<K, V>>
      reads this
      requires AllPresent(payloads, order)
    {
      Recency(payloads, order)
    }

    ghost function Config(): LruSpec.Config { LruSpec.Config(cap, maxBytes, sample) }

    ghost function State(): Lru<K, V>
      reads this, elements
      requires Valid()
    {
      Lru(Contents(), getHits)
    }

    constructor (capacity: nat, maxBytes: nat, getRecencySample: nat, entryBytes: (K, Stored<V>) -> nat)
      requires 0 < capacity
      ensures Valid() && fresh(elements)
      ensures State() == Lru([], 0)
      ensures cap == capacity % TWO_TO_32
      ensures this.maxBytes == maxBytes && this.entryBytes == entryBytes
      ensures sample == if getRecencySample == 0 then 1 else getRecencySample
    {
      index := map[];
      elements := new Element[capacity % TWO_TO_32](_ => Cleared);
      head := EMPTY_INDEX;
      len := 0;
      cap := capacity % TWO_TO_32;
      usedBytes := 0;
      getHits := 0;
      this.maxBytes := maxBytes;
      sample := if getRecencySample == 0 then 1 else getRecencySample;
      this.entryBytes := entryBytes;
      order := [];
      payloads := seq(capacity % TWO_TO_32, _ => None);
      next := seq(capacity % TWO_TO_32, _ => 0);
      prev := seq(capacity % TWO_TO_32, _ => 0);
    }

    // ---------- assignments to a slot ----------

    method SetNext(p: nat, q: nat)
      requires Mirrored() && p < cap && payloads[p].Some?
      modifies elements, `next
      ensures Mirrored() && next == old(next)[p := q]
    {
      elements[p] := elements[p].(next := q);
      next := next[p := q];
    }

    method SetPrev(p: nat, q: nat)
      requires Mirrored() && p < cap && payloads[p].Some?
      modifies elements, `prev
      ensures Mirrored() && prev == old(prev)[p := q]
    {
      elements[p] := elements[p].(prev := q);
      prev := prev[p := q];
    }

    method WriteSlot(p: nat, e: Entry<K, V>)
      requires Mirrored() && p < cap
      modifies elements, `payloads, `next, `prev
      ensures Mirrored() && payloads == old(payloads)[p := Some(e)]
      ensures next == old(next)[p := EMPTY_INDEX] && prev == old(prev)[p := EMPTY_INDEX]
    {
      elements[p] := Element(e.key, e.value, e.cost, EMPTY_INDEX, EMPTY_INDEX);
      payloads, next, prev := payloads[p := Some(e)], next[p := EMPTY_INDEX], prev[p := EMPTY_INDEX];
    }

    method CopySlot(from: nat, to: nat)
      requires Mirrored() && from < cap && to < cap
      modifies elements, `payloads, `next, `prev
      ensures Mirrored() && payloads == old(payloads)[to := old(payloads)[from]]
      ensures next == old(next)[to := old(next)[from]] && prev == old(prev)[to := old(prev)[from]]
    {
      elements[to] := elements[from];
      payloads, next, prev := payloads[to := payloads[from]], next[to := next[from]], prev[to := prev[from]];
    }

    method ClearSlot(p: nat)
      requires Mirrored() && p < cap
      modifies elements, `payloads
      ensures Mirrored() && payloads == old(payloads)[p := None]
    {
      elements[p] := Cleared;
      payloads := payloads[p := None];
    }

    // ---------- recency list ----------

    method LinkFront(pos: nat)
      requires Wired() && pos < cap && payloads[pos].Some? && pos !in order
      modifies elements, `head, `next, `prev, `order
      ensures Wired() && order == old(order) + [pos]
    {
      LinkRing(next, prev, order, head, pos);
      order := order + [pos];
      if head == EMPTY_INDEX {
        head := pos;
        SetNext(pos, pos);
        SetPrev(pos, pos);
        return;
      }
      var tail := elements[head].next;
      SetNext(pos, tail);
      SetPrev(pos, head);
      SetPrev(tail, pos);
      SetNext(head, pos);
      head := pos;
    }

    method UnlinkLRU(pos: nat, ghost i: nat)
      requires Wired() && i < |order| && order[i] == pos
      modifies elements, `head, `next, `prev, `order
      ensures Wired() && order == Without(old(order), i)
    {
      Neighbours(next, prev, order, head, i);
      if elements[pos].next == pos {
        head := EMPTY_INDEX;
        order := [];
        return;
      }
      UnlinkRing(next, prev, order, head, i);
      order := Without(order, i);
      var after := elements[pos].next;
      var before := elements[pos].prev;
      SetPrev(after, before);
      SetNext(before, after);
      if head == pos {
        head := before;
      }
    }

    /** Redirect the links around the element that was copied from `oldPos` to `newPos`. */
    method RepointMoved(oldPos: nat, newPos: nat, ghost j: nat)
      requires Mirrored() && newPos < cap && oldPos < cap && payloads[newPos].Some?
      requires next[newPos] < cap && payloads[next[newPos]].Some?
      requires prev[newPos] < cap && payloads[prev[newPos]].Some?
      modifies elements, `head, `next, `prev
      ensures Mirrored()
      ensures next == RepointNext(old(next), old(prev), oldPos, newPos)
      ensures prev == RepointPrev(old(next), old(prev), oldPos, newPos)
      ensures head == if old(head) == oldPos then newPos else old(head)
    {
      var moved := elements[newPos];
      if moved.next == oldPos {
        SetNext(newPos, newPos);
      } else {
        SetPrev(moved.next, newPos);
      }
      if moved.prev == oldPos {
        SetPrev(newPos, newPos);
      } else {
        SetNext(moved.prev, newPos);
      }
      if head == oldPos {
        head := newPos;
      }
    }

    /** The second half of `removeAt`: the last entry moves into the hole that unlinking `pos` left. */
    method FillHole(pos: nat)
      requires Wired() && pos < len <= cap && Hole(order, len, pos) && payloads[len - 1].Some?
      modifies elements, `index, `head, `len, `next, `prev, `payloads, `order
      ensures Wired() && len == old(len) - 1 && Covers(order, len)
      ensures payloads == old(payloads)[pos := old(payloads)[len]][len := None]
      ensures index == if pos == len then old(index) else old(index)[old(payloads)[len].value.key := pos]
      ensures Contents() == old(Contents())
    {
      hide Ring, AllPresent, Covers, Hole, Slots, Recency, RepointNext, RepointPrev;
      var last := len - 1;
      len := len - 1;
      if pos != last {
        ghost var j := MoveLast(payloads, next, prev, order, head, last + 1, pos);
        CopySlot(last, pos);
        index := index[elements[pos].key := pos];
        RepointMoved(last, pos, j);
        order := order[j := pos];
      } else {
        ClearLast(payloads, order, last + 1);
      }
      ClearSlot(last);
    }

    method RemoveAt(pos: nat)
      requires Valid() && pos < len
      modifies this, elements
      ensures Valid() && len == old(len) - 1 && getHits == old(getHits)
      ensures payloads == old(payloads)[pos := old(payloads)[len]][len := None]
      ensures Contents() == Drop(old(Contents()), {old(payloads[pos]).value.key})
    {
      hide Ring, AllPresent, Covers, Hole, Slots, Indexed, Recency, Drop, Bytes, Without, Packed;
      ghost var i := UncoverSlot(order, len, pos);
      LivePayload(payloads, len, pos);
      RemoveEntry(payloads, order, len, index, i);
      RemovePayload(payloads, len, index, pos);
      var removedKey := elements[pos].key;
      usedBytes := usedBytes - elements[pos].cost;
      UnlinkLRU(pos, i);
      index := index - {removedKey};
      FillHole(pos);
    }

    method MoveToFront(pos: nat)
      requires Valid() && pos < len
      modifies elements, `head, `next, `prev, `order
      ensures Valid()
      ensures Contents() == Touch(old(Contents()), payloads[pos].value.key)
    {
      hide Ring, AllPresent, Covers, Slots, Indexed, Packed, Recency, Bytes, Hole, Touch, Without;
      ghost var i := UncoverSlot(order, len, pos);
      HeadIsRecent(payloads, next, prev, order, len, index, head, pos);
      if head == pos || head == EMPTY_INDEX {
        return;
      }
      RotateCovers(order, len, i);
      TouchEntry(payloads, order, len, index, i);
      UnlinkLRU(pos, i);
      LinkFront(pos);
    }

    // ---------- operations ----------

    method RefreshOnGet() returns (refresh: bool)
      requires Valid()
      modifies `getHits
      ensures Valid() && (refresh, getHits) == CountHit(Config(), old(getHits))
    {
      if sample <= 1 {
        return true;
      }
      getHits := (getHits + 1) % TWO_TO_64;
      return getHits % sample == 0;
    }

    method Get(key: K) returns (r: Option<Stored<V>>)
      requires Valid()
      modifies this, elements
      ensures Valid() && State() == LruSpec.Get(Config(), old(State()), key)
      ensures r == Value(old(State()), key)
    {
      hide Ring, AllPresent, Covers, Slots, Indexed, Packed, Recency, Bytes, Touch, Drop, Lookup;
      LookupIndexed(payloads, order, len, index, key);
      if key !in index {
        return None;
      }
      var pos := index[key];
      r := Some(elements[pos].value);
      var refresh := RefreshOnGet();
      if refresh {
        MoveToFront(pos);
      }
    }

    method Peek(key: K) returns (r: Option<Stored<V>>)
      requires Valid()
      ensures r == Value(State(), key)
    {
      hide Ring, AllPresent, Covers, Slots, Indexed, Packed, Recency, Bytes, Touch, Drop, Lookup;
      LookupIndexed(payloads, order, len, index, key);
      if key !in index {
        return None;
      }
      return Some(elements[index[key]].value);
    }

    method PeekFreshValue(key: K, now: Time) returns (r: Option<V>)
      requires Valid()
      modifies this, elements
      ensures Valid() && State() == PeekFresh(Config(), old(State()), key, now)
      ensures var found := Value(old(State()), key);
              r == if found.Some? && IsFresh(found.value, now) then Some(found.value.value) else None
    {
      hide Ring, AllPresent, Covers, Slots, Indexed, Packed, Recency, Bytes, Touch, Drop, Lookup;
      LookupIndexed(payloads, order, len, index, key);
      if key !in index {
        return None;
      }
      var pos := index[key];
      var entry := elements[pos].value;
      if entry.noExpire || now < entry.freshUntil || now == entry.freshUntil {
        r := Some(entry.value);
        var refresh := RefreshOnGet();
        if refresh {
          MoveToFront(pos);
        }
        return;
      }
      return None;
    }

    method Delete(key: K)
      requires Valid()
      modifies this, elements
      ensures Valid() && State() == LruSpec.Delete(old(State()), key)
    {
      hide Ring, AllPresent, Covers, Slots, Indexed, Packed, Recency, Bytes, Touch, Drop, Lookup;
      LookupIndexed(payloads, order, len, index, key);
      if key in index {
        RemoveAt(index[key]);
      }
    }

    /** Remove the least recently used entry, as every eviction loop does. */
    method EvictOldest()
      requires Valid() && 0 < len
      modifies this, elements
      ensures Valid() && len == old(len) - 1 && getHits == old(getHits)
      ensures |old(Contents())| == old(len) && Contents() == old(Contents())[1..]
    {
      hide Ring, AllPresent, Slots, Indexed, Packed, Recency, Bytes, Drop;
      OldestSlot(payloads, next, prev, order, len, index, head);
      RemoveAt(elements[head].next);
    }

    method Overwrite(pos: nat, value: Stored<V>, cost: nat)
      requires Valid() && pos < len
      modifies elements, `head, `next, `prev, `order, `payloads, `usedBytes
      ensures Valid()
      ensures var key := old(payloads[pos]).value.key;
              Contents() == Drop(old(Contents()), {key}) + [Entry(key, value, cost)]
    {
      hide Ring, AllPresent, Covers, Slots, Indexed, Packed, Recency, Bytes, Drop, Touch;
      LivePayload(payloads, len, pos);
      ghost var e := Entry(payloads[pos].value.key, value, cost);
      OverwriteEntry(payloads, order, len, index, pos, e);
      usedBytes := usedBytes + cost - elements[pos].cost;
      elements[pos] := elements[pos].(value := value, cost := cost);
      payloads := payloads[pos := Some(e)];
      MoveToFront(pos);
    }

    method Insert(key: K, value: Stored<V>, cost: nat)
      requires Valid() && key !in index && len < cap
      modifies this, elements
      ensures Valid() && getHits == old(getHits)
      ensures Contents() == old(Contents()) + [Entry(key, value, cost)]
    {
      hide Ring, AllPresent, Covers, Slots, Indexed, Packed, Recency, Bytes;
      var e := Entry(key, value, cost);
      AppendEntry(payloads, order, len, index, e);
      ForgetLinks(next, prev, order, head, len, EMPTY_INDEX, EMPTY_INDEX);
      var pos := len;
      len := len + 1;
      WriteSlot(pos, e);
      index := index[key := pos];
      LinkFront(pos);
      usedBytes := usedBytes + cost;
    }

    method EnforceBytes()
      requires Valid()
      modifies this, elements
      ensures Valid() && getHits == old(getHits)
      ensures Contents() == Trim(Config(), old(Contents()))
    {
      hide Ring, AllPresent, Slots, Indexed, Packed, Recency;
      while 0 < maxBytes && usedBytes > maxBytes && len > 1
        invariant Valid() && getHits == old(getHits)
        invariant Trim(Config(), Contents()) == Trim(Config(), old(Contents()))
        decreases len
      {
        EvictOldest();
      }
    }

    /** Evict until an entry of the given cost fits. With no slots at all, reading the list head
        is out of bounds and the store panics. */
    method MakeRoomFor(key: K, cost: nat) returns (panicked: bool)
      requires Valid() && Lookup(Contents(), key) == None
      modifies this, elements
      ensures Valid() && getHits == old(getHits) && (panicked <==> cap == 0)
      ensures panicked ==> Contents() == old(Contents())
      ensures !panicked ==> len < cap && Lookup(Contents(), key) == None
                            && Contents() == MakeRoom(Config(), old(Contents()), cost)
    {
      hide Ring, AllPresent, Slots, Indexed, Packed, Recency, Lookup;
      while len == cap || (0 < maxBytes && usedBytes + cost > maxBytes && len > 0)
        invariant Valid() && getHits == old(getHits) && Lookup(Contents(), key) == None
        invariant cap == 0 ==> Contents() == old(Contents())
        invariant 0 < cap ==> MakeRoom(Config(), Contents(), cost) == MakeRoom(Config(), old(Contents()), cost)
        decreases len
      {
        HeadInBounds(payloads, next, prev, order, len, index, head);
        if head >= elements.Length {
          return true;
        }
        LookupRest(Contents(), key);
        EvictOldest();
      }
      return false;
    }

    /** `Set` panics exactly on a store whose truncated capacity is zero. */
    method Set(key: K, value: Stored<V>) returns (panicked: bool)
      requires Valid()
      modifies this, elements
      ensures Valid() && (panicked <==> cap == 0)
      ensures State() == if panicked then old(State())
                         else Put(Config(), old(State()), Entry(key, value, entryBytes(key, value)))
    {
      hide Ring, AllPresent, Slots, Covers, Indexed, Packed, Recency, Lookup, MakeRoom, Trim, Drop, Bytes;
      var cost := entryBytes(key, value);
      LookupIndexed(payloads, order, len, index, key);
      if key in index {
        Overwrite(index[key], value, cost);
        EnforceBytes();
        return false;
      }
      panicked := MakeRoomFor(key, cost);
      if !panicked {
        LookupIndexed(payloads, order, len, index, key);
        Insert(key, value, cost);
      }
    }

    method Clear()
      requires Valid()
      modifies this, elements
      ensures Valid() && State() == Lru([], old(State()).hits)
    {
      hide Ring, Indexed;
      for i := 0 to len
        invariant Mirrored() && |next| == old(|next|)
        invariant unchanged(`len, `getHits)
        invariant forall p | 0 <= p < i || len <= p < cap :: payloads[p].None?
      {
        ClearSlot(i);
      }
      order := [];
      EmptyStore(payloads, next, prev);
      hide Covers, Packed, AllPresent, Recency;
      index := map[];
      head := EMPTY_INDEX;
      len := 0;
      usedBytes := 0;
    }

    method Len() returns (n: nat)
      requires Valid()
      ensures n == |State().entries|
    {
      return len;
    }

    method UsedBytes() returns (n: int)
      requires Valid()
      ensures n == Bytes(State().entries)
    {
      return usedBytes;
    }

    /** After a removal the same slot is examined again: the last entry has moved into it. */
    method DeleteByTag(tag: string)
      requires Valid()
      modifies this, elements
      ensures Valid() && State() == LruSpec.DeleteByTag(old(State()), tag)
    {
      hide Ring, Slots, Indexed, Recency, Bytes, Drop, TaggedKeys;
      ghost var es := Contents();
      ghost var tagged := TaggedKeys(es, tag);
      var pos := 0;
      while pos < len
        invariant Valid() && pos <= len && getHits == old(getHits)
        invariant Drop(Contents(), TaggedKeys(Contents(), tag)) == Drop(es, tagged)
        invariant forall p | 0 <= p < pos :: tag !in payloads[p].value.value.tags
        decreases len - pos
      {
        LivePayload(payloads, len, pos);
        if tag in elements[pos].value.tags {
          DropTagged(payloads, order, len, index, pos, tag);
          RemoveAt(pos);
        } else {
          pos := pos + 1;
        }
      }
      NothingTagged(payloads, order, len, tag);
    }
  }

  /** `New`; null is a panic. The capacity is truncated to 32 bits. */
  method New<K(==), V>(capacity: int, maxBytes: nat, getRecencySample: nat, entryBytes: (K, Stored<V>) -> nat)
    returns (s: Store?<K, V>)
    ensures s == null <==> capacity <= 0
    ensures s != null ==> fresh(s) && fresh(s.elements) && s.Valid() && s.State() == Lru([], 0)
    ensures s != null ==> s.Config() == LruSpec.Config(capacity % TWO_TO_32, maxBytes,
        if getRecencySample == 0 then 1 else getRecencySample)
    ensures s != null ==> s.entryBytes == entryBytes
  {
    if capacity <= 0 {
      return null;
    }
    s := new Store(capacity, maxBytes, getRecencySample, entryBytes);
  }
}
