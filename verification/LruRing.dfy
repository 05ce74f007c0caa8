/** The circular list that stores/memory/store.go threads through an array of slots.
    The link surgery is proved on the two sequences of links alone; `Assemble` puts links and
    stored entries back together into slots. */
module LruRing {
  import opened Envelope
  import opened LruSpec

  const EMPTY_INDEX: nat := 0xFFFF_FFFF

  /** A slot: `Cleared` is the zero struct that a freed slot is overwritten with. */
  datatype Element<K, V> =
    | Cleared
    | Element(key: K, value: Stored<V>, cost: nat, next: nat, prev: nat)

  /** The slot that holds the given entry, if any, and links. */
  function Assemble<K, V>(payload: Option<Entry<K, V>>, next: nat, prev: nat): Element<K, V> {
    match payload
    case None => Cleared
    case Some(e) => Element(e.key, e.value, e.cost, next, prev)
  }

  // ---------- rings ----------

  function After(i: nat, n: nat): nat { if i + 1 == n then 0 else i + 1 }

  function Before(i: nat, n: nat): int { if i == 0 then n - 1 else i - 1 }

  /** `order` lists distinct slots below `size`. */
  predicate Slots(order: seq<nat>, size: nat) {
    && (forall i | 0 <= i < |order| :: order[i] < size)
    && (forall i, j | 0 <= i < j < |order| :: order[i] != order[j])
  }

  predicate Adjacent(next: seq<nat>, prev: seq<nat>, p: nat, q: nat) {
    p < |next| && q < |prev| && next[p] == q && prev[q] == p
  }

  /** The links of the slots in `order`, least recently used first, form exactly one cycle in
      both directions, and `head` is its most recently used slot. */
  ghost predicate Ring(next: seq<nat>, prev: seq<nat>, order: seq<nat>, head: nat) {
    && |next| == |prev| <= EMPTY_INDEX
    && Slots(order, |next|)
    && head == (if order == [] then EMPTY_INDEX else order[|order| - 1])
    && forall i, j | 0 <= i < |order| && 0 <= j < |order| && j == After(i, |order|) ::
         Adjacent(next, prev, order[i], order[j])
  }

  function Without(order: seq<nat>, i: nat): seq<nat>
    requires i < |order|
  { order[..i] + order[i + 1..] }

  lemma Neighbours(next: seq<nat>, prev: seq<nat>, order: seq<nat>, head: nat, i: nat)
    requires Ring(next, prev, order, head) && i < |order|
    ensures next[order[i]] == order[After(i, |order|)]
    ensures prev[order[i]] == order[Before(i, |order|)]
  {
    assert i == After(Before(i, |order|), |order|);
    assert Adjacent(next, prev, order[i], order[After(i, |order|)]);
    assert Adjacent(next, prev, order[Before(i, |order|)], order[i]);
  }

  /** The links of a slot that is not on the list do not matter. */
  lemma ForgetLinks(next: seq<nat>, prev: seq<nat>, order: seq<nat>, head: nat, p: nat, a: nat, b: nat)
    requires Ring(next, prev, order, head) && p < |next| && p !in order
    ensures Ring(next[p := a], prev[p := b], order, head)
  {
    forall i, j | 0 <= i < |order| && 0 <= j < |order| && j == After(i, |order|)
      ensures Adjacent(next[p := a], prev[p := b], order[i], order[j])
    {
      assert Adjacent(next, prev, order[i], order[j]);
    }
  }

  lemma WithoutSlots(order: seq<nat>, size: nat, i: nat)
    requires Slots(order, size) && i < |order|
    ensures Slots(Without(order, i), size)
    ensures order[i] !in Without(order, i)
    ensures forall p :: p in order ==> p == order[i] || p in Without(order, i)
    ensures forall p :: p in Without(order, i) ==> p in order
  {
    forall p | p in order && p != order[i] ensures p in Without(order, i) {
      var j :| 0 <= j < |order| && order[j] == p;
      assert Without(order, i)[if j < i then j else j - 1] == p;
    }
  }

  /** After bypassing `order[i]`, each slot of the remaining order is next to its successor. */
  lemma UnlinkStep(next: seq<nat>, prev: seq<nat>, order: seq<nat>, head: nat, i: nat, j: nat, k: nat)
    requires Ring(next, prev, order, head) && i < |order| && 1 < |order|
    requires j < |order| - 1 && k < |order| - 1 && k == After(j, |order| - 1)
    ensures var before, after := order[Before(i, |order|)], order[After(i, |order|)];
            Adjacent(next[before := after], prev[after := before], Without(order, i)[j], Without(order, i)[k])
  {
    var n := |order|;
    var j' := if j < i then j else j + 1;
    var k' := if k < i then k else k + 1;
    assert Without(order, i)[j] == order[j'] && Without(order, i)[k] == order[k'];
    if j' == Before(i, n) {
      assert k' == After(i, n);
    } else {
      assert Adjacent(next, prev, order[j'], order[k']);
    }
  }

  lemma WithoutLast(order: seq<nat>, i: nat)
    requires i < |order| && 1 < |order|
    ensures |Without(order, i)| == |order| - 1
    ensures Without(order, i)[|order| - 2] == if i == |order| - 1 then order[|order| - 2] else order[|order| - 1]
  {
  }

  lemma UnlinkRing(next: seq<nat>, prev: seq<nat>, order: seq<nat>, head: nat, i: nat)
    requires Ring(next, prev, order, head) && i < |order| && 1 < |order|
    ensures var pos := order[i]; var n, p := next[pos], prev[pos];
            n < |next| && p < |next| && n != pos && p != pos
            && Ring(next[p := n], prev[n := p], Without(order, i), if head == pos then p else head)
  {
    Neighbours(next, prev, order, head, i);
    WithoutSlots(order, |next|, i);
    var n := |order|;
    var before, after := order[Before(i, n)], order[After(i, n)];
    WithoutLast(order, i);
    hide Adjacent, Without;
    forall j, k | 0 <= j < n - 1 && 0 <= k < n - 1 && k == After(j, n - 1)
      ensures Adjacent(next[before := after], prev[after := before], Without(order, i)[j], Without(order, i)[k])
    {
      UnlinkStep(next, prev, order, head, i, j, k);
    }
  }

  lemma LinkRing(next: seq<nat>, prev: seq<nat>, order: seq<nat>, head: nat, pos: nat)
    requires Ring(next, prev, order, head) && pos < |next| && pos !in order
    ensures order == [] ==> Ring(next[pos := pos], prev[pos := pos], [pos], pos)
    ensures order != [] ==>
      var tail := order[0];
      next[head] == tail
      && Ring(next[pos := tail][head := pos], prev[pos := head][tail := pos], order + [pos], pos)
  {
    if order != [] {
      var n := |order|;
      Neighbours(next, prev, order, head, n - 1);
      var tail := order[0];
      var order' := order + [pos];
      forall i, j | 0 <= i < n + 1 && 0 <= j < n + 1 && j == After(i, n + 1)
        ensures Adjacent(next[pos := tail][head := pos], prev[pos := head][tail := pos], order'[i], order'[j])
      {
        if i < n - 1 {
          assert Adjacent(next, prev, order[i], order[j]);
        }
      }
    }
  }

  /** Redirect the links of an element just copied from `oldPos` to `newPos`, and of its neighbours. */
  function RepointNext(next: seq<nat>, prev: seq<nat>, oldPos: nat, newPos: nat): seq<nat>
    requires newPos < |next| == |prev| && prev[newPos] < |next|
  {
    var a := if next[newPos] == oldPos then next[newPos := newPos] else next;
    if prev[newPos] == oldPos then a else a[prev[newPos] := newPos]
  }

  function RepointPrev(next: seq<nat>, prev: seq<nat>, oldPos: nat, newPos: nat): seq<nat>
    requires newPos < |next| == |prev| && next[newPos] < |prev|
  {
    var a := if next[newPos] == oldPos then prev else prev[next[newPos] := newPos];
    if prev[newPos] == oldPos then a[newPos := newPos] else a
  }

  /** Moving the element of slot `order[j]` to the unused slot `pos`. */
  lemma RepointRing(next: seq<nat>, prev: seq<nat>, order: seq<nat>, head: nat, j: nat, pos: nat)
    requires Ring(next, prev, order, head) && j < |order| && pos < |next| && pos !in order
    ensures var n, p := next[pos := next[order[j]]], prev[pos := prev[order[j]]];
            n[pos] < |n| && p[pos] < |p|
            && Ring(RepointNext(n, p, order[j], pos), RepointPrev(n, p, order[j], pos),
                    order[j := pos], if head == order[j] then pos else head)
  {
    Neighbours(next, prev, order, head, j);
    var size := |order|;
    var n, p := next[pos := next[order[j]]], prev[pos := prev[order[j]]];
    var n', p' := RepointNext(n, p, order[j], pos), RepointPrev(n, p, order[j], pos);
    var order' := order[j := pos];
    forall i, k | 0 <= i < size && 0 <= k < size && k == After(i, size)
      ensures Adjacent(n', p', order'[i], order'[k])
    {
      assert Adjacent(next, prev, order[i], order[k]);
    }
  }
}
