/** How the slots of stores/memory/store.go represent a recency sequence: live slots are packed
    at the front, indexed by key, and listed from least to most recently used. */
module LruSlots {
  import opened Envelope
  import opened Words
  import opened LruSpec
  import opened LruRing

  /** Slots below `len` hold entries, the others are cleared. */
  ghost predicate Packed<K, V>(payloads: seq<Option<Entry<K, V>>>, len: nat) {
    && len <= |payloads|
    && (forall p | 0 <= p < len :: payloads[p].Some?)
    && (forall p | len <= p < |payloads| :: payloads[p].None?)
  }

  /** `index` is a bijection between stored keys and live slots. */
  ghost predicate Indexed<K, V>(payloads: seq<Option<Entry<K, V>>>, len: nat, index: map<K, nat>)
    requires Packed(payloads, len)
  {
    && (forall k | k in index :: index[k] < len && payloads[index[k]].value.key == k)
    && (forall p | 0 <= p < len :: payloads[p].value.key in index && index[payloads[p].value.key] == p)
  }

  /** Every live slot is on the recency list. */
  ghost predicate Covers(order: seq<nat>, len: nat) {
    && |order| == len
    && Slots(order, len)
    && forall p | 0 <= p < len :: p in order
  }

  ghost predicate AllPresent<K, V>(payloads: seq<Option<Entry<K, V>>>, order: seq<nat>) {
    forall i | 0 <= i < |order| :: order[i] < |payloads| && payloads[order[i]].Some?
  }

  /** The stored entries in recency order. */
  ghost function Recency<K, V>(payloads: seq<Option<Entry<K, V>>>, order: seq<nat>): (es: seq<Entry<K, V>>)
    requires AllPresent(payloads, order)
    ensures |es| == |order|
  {
    seq(|order|, i requires 0 <= i < |order| => payloads[order[i]].value)
  }

  /** `order` covers every slot below `len` but `pos`. */
  ghost predicate Hole(order: seq<nat>, len: nat, pos: nat) {
    && |order| + 1 == len && pos < len
    && Slots(order, len)
    && pos !in order
    && forall p | 0 <= p < len :: p in order || p == pos
  }

  // ---------- removal, on the abstract slots ----------

  lemma UncoverSlot(order: seq<nat>, len: nat, pos: nat) returns (i: nat)
    requires Covers(order, len) && pos < len
    ensures i < |order| && order[i] == pos
    ensures Hole(Without(order, i), len, pos)
  {
    assert pos in order;
    i :| 0 <= i < |order| && order[i] == pos;
    WithoutSlots(order, len, i);
  }

  lemma DistinctRecency<K, V>(payloads: seq<Option<Entry<K, V>>>, order: seq<nat>, len: nat, index: map<K, nat>)
    requires Packed(payloads, len) && Indexed(payloads, len, index) && Covers(order, len)
    requires AllPresent(payloads, order)
    ensures Distinct(Recency(payloads, order))
  {
  }

  lemma LivePayload<K, V>(payloads: seq<Option<Entry<K, V>>>, len: nat, pos: nat)
    requires Packed(payloads, len) && pos < len
    ensures len <= |payloads| && payloads[pos].Some? && payloads[len - 1].Some?
  {
  }

  lemma RecencyWithout<K, V>(payloads: seq<Option<Entry<K, V>>>, order: seq<nat>, i: nat)
    requires AllPresent(payloads, order) && i < |order|
    ensures AllPresent(payloads, Without(order, i))
    ensures var es := Recency(payloads, order);
            && es[i] == payloads[order[i]].value
            && Recency(payloads, Without(order, i)) == es[..i] + es[i + 1..]
  {
  }

  /** Taking slot `order[i]` off the list removes exactly its entry from the recency sequence. */
  lemma RemoveEntry<K, V>(payloads: seq<Option<Entry<K, V>>>, order: seq<nat>, len: nat, index: map<K, nat>, i: nat)
    requires Packed(payloads, len) && Indexed(payloads, len, index) && Covers(order, len)
    requires AllPresent(payloads, order) && i < |order|
    ensures AllPresent(payloads, Without(order, i))
    ensures var es, rest := Recency(payloads, order), Recency(payloads, Without(order, i));
            && rest == Drop(es, {payloads[order[i]].value.key})
            && Lookup(es, payloads[order[i]].value.key) == payloads[order[i]]
            && Bytes(es) == Bytes(rest) + payloads[order[i]].value.cost
  {
    hide Indexed, Covers, Packed, Recency, Without, Drop, Bytes, Distinct, Lookup;
    DistinctRecency(payloads, order, len, index);
    RecencyWithout(payloads, order, i);
    RemoveIndex(Recency(payloads, order), i);
  }

  /** Filling the hole at `pos` with the last entry and clearing the last slot. */
  lemma RemovePayload<K, V>(payloads: seq<Option<Entry<K, V>>>, len: nat, index: map<K, nat>, pos: nat)
    requires Packed(payloads, len) && Indexed(payloads, len, index) && pos < len
    ensures var last := len - 1;
            var rest := index - {payloads[pos].value.key};
            var filled := payloads[pos := payloads[last]][last := None];
            Packed(filled, last)
            && Indexed(filled, last, if pos == last then rest else rest[payloads[last].value.key := pos])
  {
  }

  lemma LastSlot(order: seq<nat>, len: nat, pos: nat) returns (j: nat)
    requires Hole(order, len, pos) && pos != len - 1
    ensures j < |order| && order[j] == len - 1
    ensures forall i | 0 <= i < |order| && i != j :: order[i] != order[j]
    ensures Covers(order[j := pos], len - 1)
    ensures pos !in order
  {
    var last := len - 1;
    assert last in order;
    j :| 0 <= j < |order| && order[j] == last;
    var order' := order[j := pos];
    assert order'[j] == pos;
    forall p: nat | p < last
      ensures p in order'
    {
      if p != pos {
        assert p in order;
        var i :| 0 <= i < |order| && order[i] == p;
        assert order'[i] == p;
      }
    }
  }

  /** Moving the last entry into the hole keeps the ring and the recency sequence. */
  lemma MoveLast<K, V>(payloads: seq<Option<Entry<K, V>>>, next: seq<nat>, prev: seq<nat>, order: seq<nat>, head: nat,
                       len: nat, pos: nat)
    returns (j: nat)
    requires Ring(next, prev, order, head) && AllPresent(payloads, order) && |payloads| == |next|
    requires Hole(order, len, pos) && len <= |payloads| && pos != len - 1
    ensures j < |order| && order[j] == len - 1 && payloads[len - 1].Some?
    ensures Covers(order[j := pos], len - 1)
    ensures var filled := payloads[pos := payloads[len - 1]];
            var n, p := next[pos := next[len - 1]], prev[pos := prev[len - 1]];
            && n[pos] < |n| && filled[n[pos]].Some?
            && p[pos] < |p| && filled[p[pos]].Some?
            && Ring(RepointNext(n, p, len - 1, pos), RepointPrev(n, p, len - 1, pos),
                    order[j := pos], if head == len - 1 then pos else head)
            && AllPresent(filled[len - 1 := None], order[j := pos])
            && Recency(filled[len - 1 := None], order[j := pos]) == Recency(payloads, order)
  {
    j := LastSlot(order, len, pos);
    RepointRing(next, prev, order, head, j, pos);
    Neighbours(next, prev, order, head, j);
  }

  lemma ClearLast<K, V>(payloads: seq<Option<Entry<K, V>>>, order: seq<nat>, len: nat)
    requires AllPresent(payloads, order) && 0 < len <= |payloads| && Hole(order, len, len - 1)
    ensures AllPresent(payloads[len - 1 := None], order)
    ensures Recency(payloads[len - 1 := None], order) == Recency(payloads, order)
    ensures Covers(order, len - 1)
  {
  }

  // ---------- lookups and updates, on the abstract slots ----------

  lemma LookupIndexed<K, V>(payloads: seq<Option<Entry<K, V>>>, order: seq<nat>, len: nat, index: map<K, nat>, key: K)
    requires Packed(payloads, len) && Indexed(payloads, len, index) && Covers(order, len)
    requires AllPresent(payloads, order)
    ensures Distinct(Recency(payloads, order))
    ensures key in index ==> index[key] < len <= |payloads| && payloads[index[key]].Some?
                             && Lookup(Recency(payloads, order), key) == payloads[index[key]]
    ensures key !in index ==> Lookup(Recency(payloads, order), key) == None
                              && Drop(Recency(payloads, order), {key}) == Recency(payloads, order)
  {
    DistinctRecency(payloads, order, len, index);
    if key in index {
      var i := UncoverSlot(order, len, index[key]);
      LookupAt(Recency(payloads, order), i);
    } else {
      DropNothing(Recency(payloads, order), {key});
    }
  }

  lemma RotateCovers(order: seq<nat>, len: nat, i: nat)
    requires Covers(order, len) && i < |order|
    ensures Covers(Without(order, i) + [order[i]], len)
    ensures order[i] !in Without(order, i)
  {
    WithoutSlots(order, len, i);
    var order' := Without(order, i) + [order[i]];
    forall p: nat | p < len ensures p in order' {
      assert p in order;
    }
  }

  /** Moving slot `order[i]` to the recent end of the list touches its entry. */
  lemma TouchEntry<K, V>(payloads: seq<Option<Entry<K, V>>>, order: seq<nat>, len: nat, index: map<K, nat>, i: nat)
    requires Packed(payloads, len) && Indexed(payloads, len, index) && Covers(order, len)
    requires AllPresent(payloads, order) && i < |order|
    ensures var order' := Without(order, i) + [order[i]];
            && AllPresent(payloads, order')
            && Recency(payloads, order') == Touch(Recency(payloads, order), payloads[order[i]].value.key)
            && Bytes(Recency(payloads, order')) == Bytes(Recency(payloads, order))
  {
    hide Indexed, Covers, Packed, Bytes, Drop, Without;
    RemoveEntry(payloads, order, len, index, i);
    var rest := Without(order, i);
    var e := payloads[order[i]].value;
    assert Recency(payloads, rest + [order[i]]) == Recency(payloads, rest) + [e];
    BytesConcat(Recency(payloads, rest), [e]);
    BytesOne(e);
  }

  lemma HeadIsRecent<K, V>(payloads: seq<Option<Entry<K, V>>>, next: seq<nat>, prev: seq<nat>, order: seq<nat>,
                           len: nat, index: map<K, nat>, head: nat, pos: nat)
    requires Packed(payloads, len) && Indexed(payloads, len, index) && Covers(order, len)
    requires Ring(next, prev, order, head) && AllPresent(payloads, order) && pos < len
    ensures pos < |payloads| && payloads[pos].Some?
    ensures head == pos || head == EMPTY_INDEX ==>
              Touch(Recency(payloads, order), payloads[pos].value.key) == Recency(payloads, order)
  {
    assert pos in order;
    DistinctRecency(payloads, order, len, index);
    if head == pos || head == EMPTY_INDEX {
      TouchLast(Recency(payloads, order));
    }
  }

  lemma OverwriteEntry<K, V>(payloads: seq<Option<Entry<K, V>>>, order: seq<nat>, len: nat, index: map<K, nat>,
                             pos: nat, e: Entry<K, V>)
    requires Packed(payloads, len) && Indexed(payloads, len, index) && Covers(order, len)
    requires AllPresent(payloads, order) && pos < len && payloads[pos].value.key == e.key
    ensures var payloads' := payloads[pos := Some(e)];
            && Packed(payloads', len) && Indexed(payloads', len, index) && AllPresent(payloads', order)
            && Bytes(Recency(payloads', order)) == Bytes(Recency(payloads, order)) - payloads[pos].value.cost + e.cost
            && Touch(Recency(payloads', order), e.key) == Drop(Recency(payloads, order), {e.key}) + [e]
  {
    var i := UncoverSlot(order, len, pos);
    var payloads' := payloads[pos := Some(e)];
    assert Indexed(payloads', len, index);
    hide Indexed, Packed, Drop, Bytes, Hole;
    RemoveEntry(payloads, order, len, index, i);
    RemoveEntry(payloads', order, len, index, i);
    hide Covers;
    assert Recency(payloads', Without(order, i)) == Recency(payloads, Without(order, i));
  }

  lemma AppendEntry<K, V>(payloads: seq<Option<Entry<K, V>>>, order: seq<nat>, len: nat, index: map<K, nat>,
                          e: Entry<K, V>)
    requires Packed(payloads, len) && Indexed(payloads, len, index) && Covers(order, len)
    requires AllPresent(payloads, order) && len < |payloads| && e.key !in index
    ensures var payloads', order' := payloads[len := Some(e)], order + [len];
            && Packed(payloads', len + 1) && Indexed(payloads', len + 1, index[e.key := len])
            && Covers(order', len + 1) && AllPresent(payloads', order') && AllPresent(payloads', order)
            && len !in order
            && Recency(payloads', order') == Recency(payloads, order) + [e]
            && Bytes(Recency(payloads', order')) == Bytes(Recency(payloads, order)) + e.cost
  {
    var payloads', order' := payloads[len := Some(e)], order + [len];
    assert forall p: nat | p < len :: p in order && p in order';
    assert Recency(payloads', order') == Recency(payloads, order) + [e];
    BytesConcat(Recency(payloads, order), [e]);
    BytesOne(e);
  }

  lemma OldestSlot<K, V>(payloads: seq<Option<Entry<K, V>>>, next: seq<nat>, prev: seq<nat>, order: seq<nat>,
                         len: nat, index: map<K, nat>, head: nat)
    requires Packed(payloads, len) && Indexed(payloads, len, index) && Covers(order, len)
    requires Ring(next, prev, order, head) && AllPresent(payloads, order) && |payloads| == |next| && 0 < len
    ensures head < |next| && payloads[head].Some? && next[head] < len && payloads[next[head]].Some?
    ensures var es := Recency(payloads, order);
            es != [] && Drop(es, {payloads[next[head]].value.key}) == es[1..]
  {
    Neighbours(next, prev, order, head, len - 1);
    DistinctRecency(payloads, order, len, index);
    DropFirst(Recency(payloads, order));
  }

  lemma HeadInBounds<K, V>(payloads: seq<Option<Entry<K, V>>>, next: seq<nat>, prev: seq<nat>, order: seq<nat>,
                           len: nat, index: map<K, nat>, head: nat)
    requires Packed(payloads, len) && Indexed(payloads, len, index) && Covers(order, len)
    requires Ring(next, prev, order, head) && AllPresent(payloads, order) && |payloads| == |next| < TWO_TO_32
    ensures head < |next| <==> 0 < len
  {
    if 0 < len {
      OldestSlot(payloads, next, prev, order, len, index, head);
    }
  }

  lemma LookupRest<K, V>(es: seq<Entry<K, V>>, key: K)
    requires Lookup(es, key) == None
    ensures es != [] ==> Lookup(es[1..], key) == None
  {
  }

  lemma EmptyStore<K, V>(payloads: seq<Option<Entry<K, V>>>, next: seq<nat>, prev: seq<nat>)
    requires |next| == |prev| <= EMPTY_INDEX && forall p | 0 <= p < |payloads| :: payloads[p].None?
    ensures Ring(next, prev, [], EMPTY_INDEX) && Covers([], 0)
    ensures Packed(payloads, 0) && Indexed(payloads, 0, map[])
    ensures AllPresent(payloads, []) && Recency(payloads, []) == []
  {
  }

  /** Removing one tagged entry leaves the same untagged entries. */
  lemma DropTagged<K, V>(payloads: seq<Option<Entry<K, V>>>, order: seq<nat>, len: nat, index: map<K, nat>, pos: nat,
                         tag: string)
    requires Packed(payloads, len) && Indexed(payloads, len, index) && Covers(order, len)
    requires AllPresent(payloads, order) && pos < len && tag in payloads[pos].value.value.tags
    ensures var es := Recency(payloads, order); var rest := Drop(es, {payloads[pos].value.key});
            Drop(rest, TaggedKeys(rest, tag)) == Drop(es, TaggedKeys(es, tag))
  {
    var es := Recency(payloads, order);
    DistinctRecency(payloads, order, len, index);
    var i := UncoverSlot(order, len, pos);
    assert es[i] == payloads[pos].value;
    DropOneTagged(es, payloads[pos].value, tag);
  }

  lemma NothingTagged<K, V>(payloads: seq<Option<Entry<K, V>>>, order: seq<nat>, len: nat, tag: string)
    requires Packed(payloads, len) && Covers(order, len) && AllPresent(payloads, order)
    requires forall p | 0 <= p < len :: tag !in payloads[p].value.value.tags
    ensures var es := Recency(payloads, order); Drop(es, TaggedKeys(es, tag)) == es
  {
    var es := Recency(payloads, order);
    assert TaggedKeys(es, tag) == {};
    DropNothing(es, TaggedKeys(es, tag));
  }
}
