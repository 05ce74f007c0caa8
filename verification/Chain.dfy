/** A chain of store tiers (stores/chain/store.go), used by one caller at a time. Tiers may evict
    entries whenever they are called and may fail. */
module Chain {
  import opened Envelope

  /** What one call of a tier does besides what it is asked: which keys it evicts, whether it fails. */
  datatype Whim<K> = Whim(evicts: set<K>, fails: bool)

  type Content<K, V> = map<K, Stored<V>>

  datatype Result<+V> = Found(value: Stored<V>) | Missing | Failed

  /** A tier: after a failing call the entry in question is as it was. */
  class Tier<K(==), V> {
    var entries: Content<K, V>

    method Get(key: K, whim: Whim<K>) returns (r: Result<V>)
      modifies this
      ensures entries == old(entries) - whim.evicts
      ensures r == Lookup(entries, key, whim)
    {
      entries := entries - whim.evicts;
      if whim.fails {
        return Failed;
      }
      r := if key in entries then Found(entries[key]) else Missing;
    }

    method Set(key: K, value: Stored<V>, whim: Whim<K>) returns (ok: bool)
      modifies this
      ensures ok == !whim.fails && entries == Written(old(entries), key, value, whim)
    {
      if !whim.fails {
        entries := entries[key := value];
      }
      entries := entries - whim.evicts;
      ok := !whim.fails;
    }

    method Delete(key: K, whim: Whim<K>) returns (ok: bool)
      modifies this
      ensures ok == !whim.fails && entries == Deleted(old(entries), key, whim)
    {
      if !whim.fails {
        entries := entries - {key};
      }
      entries := entries - whim.evicts;
      ok := !whim.fails;
    }

    method Clear(whim: Whim<K>) returns (ok: bool)
      modifies this
      ensures ok == !whim.fails && entries == Cleared(old(entries), whim)
    {
      entries := if whim.fails then entries - whim.evicts else map[];
      ok := !whim.fails;
    }
  }

  function Lookup<K(==), V>(m: Content<K, V>, key: K, whim: Whim<K>): Result<V> {
    if whim.fails then Failed else if key in m then Found(m[key]) else Missing
  }

  function Written<K(==), V>(m: Content<K, V>, key: K, value: Stored<V>, whim: Whim<K>): Content<K, V> {
    (if whim.fails then m else m[key := value]) - whim.evicts
  }

  function Deleted<K(==), V>(m: Content<K, V>, key: K, whim: Whim<K>): Content<K, V> {
    (if whim.fails then m else m - {key}) - whim.evicts
  }

  function Cleared<K(==), V>(m: Content<K, V>, whim: Whim<K>): Content<K, V> {
    if whim.fails then m - whim.evicts else map[]
  }

  // ---------- the chain on values ----------

  /** How many tiers `Get` asks: up to the first that fails or has the key. */
  function Asked<K(==), V>(tiers: seq<Content<K, V>>, key: K, whims: seq<Whim<K>>): (n: nat)
    requires |whims| == |tiers|
    ensures n <= |tiers|
  {
    if tiers == [] then 0
    else if Answer(tiers[0], key, whims[0]) != Missing then 1
    else 1 + Asked(tiers[1..], key, whims[1..])
  }

  function Answer<K(==), V>(m: Content<K, V>, key: K, whim: Whim<K>): Result<V> {
    Lookup(m - whim.evicts, key, whim)
  }

  function GetResult<K(==), V>(tiers: seq<Content<K, V>>, key: K, whims: seq<Whim<K>>): Result<V>
    requires |whims| == |tiers|
  {
    var n := Asked(tiers, key, whims);
    if n == 0 then Missing else Answer(tiers[n - 1], key, whims[n - 1])
  }

  /** A value found in one tier is written to those asked before; whether that succeeds is ignored. */
  function AfterGet<K(==), V>(tiers: seq<Content<K, V>>, key: K, whims: seq<Whim<K>>, backfills: seq<Whim<K>>)
    : (after: seq<Content<K, V>>)
    requires |whims| == |backfills| == |tiers|
    ensures |after| == |tiers|
  {
    var n, r := Asked(tiers, key, whims), GetResult(tiers, key, whims);
    seq(|tiers|, j requires 0 <= j < |tiers| =>
      if n <= j then tiers[j]
      else if r.Found? && j < n - 1 then Written(tiers[j] - whims[j].evicts, key, r.value, backfills[j])
      else tiers[j] - whims[j].evicts)
  }

  /** How many tiers a write reaches: up to the first that fails. */
  function Reached<K>(whims: seq<Whim<K>>): (n: nat)
    ensures n <= |whims|
  {
    if whims == [] then 0 else if whims[0].fails then 1 else 1 + Reached(whims[1..])
  }

  predicate Fails<K>(whims: seq<Whim<K>>) {
    exists i | 0 <= i < |whims| :: whims[i].fails
  }

  function AfterSet<K(==), V>(tiers: seq<Content<K, V>>, key: K, value: Stored<V>, whims: seq<Whim<K>>)
    : (after: seq<Content<K, V>>)
    requires |whims| == |tiers|
    ensures |after| == |tiers|
  {
    seq(|tiers|, j requires 0 <= j < |tiers| =>
      if j < Reached(whims) then Written(tiers[j], key, value, whims[j]) else tiers[j])
  }

  function AfterDelete<K(==), V>(tiers: seq<Content<K, V>>, key: K, whims: seq<Whim<K>>): (after: seq<Content<K, V>>)
    requires |whims| == |tiers|
    ensures |after| == |tiers|
  {
    seq(|tiers|, j requires 0 <= j < |tiers| =>
      if j < Reached(whims) then Deleted(tiers[j], key, whims[j]) else tiers[j])
  }

  function AfterClear<K(==), V>(tiers: seq<Content<K, V>>, whims: seq<Whim<K>>): (after: seq<Content<K, V>>)
    requires |whims| == |tiers|
    ensures |after| == |tiers|
  {
    seq(|tiers|, j requires 0 <= j < |tiers| =>
      if j < Reached(whims) then Cleared(tiers[j], whims[j]) else tiers[j])
  }

  lemma {:induction false} ReachedIff<K>(whims: seq<Whim<K>>, n: nat)
    requires n <= |whims| && forall j | 0 <= j < n :: !whims[j].fails
    ensures n <= Reached(whims)
    ensures n < |whims| && whims[n].fails ==> Reached(whims) == n + 1 && Fails(whims)
    ensures n == |whims| ==> Reached(whims) == n && !Fails(whims)
  {
    if n != 0 {
      assert forall j | 0 <= j < n - 1 :: whims[1..][j] == whims[j + 1];
      ReachedIff(whims[1..], n - 1);
    }
  }

  lemma {:induction false} AskedIff<K, V>(tiers: seq<Content<K, V>>, key: K, whims: seq<Whim<K>>, n: nat)
    requires |whims| == |tiers| && n <= |tiers|
    requires forall j | 0 <= j < n :: Answer(tiers[j], key, whims[j]) == Missing
    ensures n < |tiers| && Answer(tiers[n], key, whims[n]) != Missing ==>
              Asked(tiers, key, whims) == n + 1 && GetResult(tiers, key, whims) == Answer(tiers[n], key, whims[n])
    ensures n == |tiers| ==> Asked(tiers, key, whims) == n && GetResult(tiers, key, whims) == Missing
  {
    if n != 0 {
      assert forall j | 0 <= j < n - 1 :: tiers[1..][j] == tiers[j + 1] && whims[1..][j] == whims[j + 1];
      AskedIff(tiers[1..], key, whims[1..], n - 1);
    }
  }

  /** The state of the tiers when tier i has answered, or none has. */
  lemma GetEnds<K, V>(before: seq<Content<K, V>>, after: seq<Content<K, V>>, key: K, whims: seq<Whim<K>>,
                      backfills: seq<Whim<K>>, i: nat)
    requires |before| == |after| == |whims| == |backfills| && i <= |before|
    requires forall j | 0 <= j < i :: Answer(before[j], key, whims[j]) == Missing
    requires i < |before| ==> Answer(before[i], key, whims[i]) != Missing && after[i] == before[i] - whims[i].evicts
    requires forall j | 0 <= j < i ::
               after[j] == if i < |before| && Answer(before[i], key, whims[i]).Found? then
                             Written(before[j] - whims[j].evicts, key, Answer(before[i], key, whims[i]).value,
                                     backfills[j])
                           else before[j] - whims[j].evicts
    requires forall j | i < j < |before| :: after[j] == before[j]
    ensures after == AfterGet(before, key, whims, backfills)
    ensures GetResult(before, key, whims) ==
            if i < |before| then Answer(before[i], key, whims[i]) else Missing
  {
    AskedIff(before, key, whims, i);
  }

  // ---------- the chain ----------

  class ChainStore<K(==), V> {
    const tiers: seq<Tier<K, V>>

    /** At least two tiers, all different. */
    ghost predicate Valid() {
      2 <= |tiers| && forall i, j | 0 <= i < j < |tiers| :: tiers[i] != tiers[j]
    }

    ghost function View(): (view: seq<Content<K, V>>)
      reads tiers
      ensures |view| == |tiers|
    {
      seq(|tiers|, i requires 0 <= i < |tiers| reads tiers => tiers[i].entries)
    }

    constructor (tiers: seq<Tier<K, V>>)
      ensures this.tiers == tiers
    {
      this.tiers := tiers;
    }

    /** Write a value found in tier i to the tiers above it, ignoring failures. */
    method Backfill(i: nat, key: K, value: Stored<V>, backfills: seq<Whim<K>>)
      requires Valid() && i < |tiers| == |backfills|
      modifies tiers
      ensures forall j | 0 <= j < i :: tiers[j].entries == Written(old(tiers[j].entries), key, value, backfills[j])
      ensures forall j | i <= j < |tiers| :: tiers[j].entries == old(tiers[j].entries)
    {
      for b := 0 to i
        invariant forall j | 0 <= j < b :: tiers[j].entries == Written(old(tiers[j].entries), key, value, backfills[j])
        invariant forall j | b <= j < |tiers| :: tiers[j].entries == old(tiers[j].entries)
      {
        var ignored := tiers[b].Set(key, value, backfills[b]);
      }
    }

    method Get(key: K, whims: seq<Whim<K>>, backfills: seq<Whim<K>>) returns (r: Result<V>)
      requires Valid() && |whims| == |backfills| == |tiers|
      modifies tiers
      ensures r == GetResult(old(View()), key, whims)
      ensures View() == AfterGet(old(View()), key, whims, backfills)
    {
      hide AfterGet, GetResult, Written;
      ghost var before := View();
      for i := 0 to |tiers|
        invariant forall j | 0 <= j < i :: Answer(before[j], key, whims[j]) == Missing
        invariant forall j | 0 <= j < i :: tiers[j].entries == before[j] - whims[j].evicts
        invariant forall j | i <= j < |tiers| :: tiers[j].entries == before[j]
      {
        r := tiers[i].Get(key, whims[i]);
        if !r.Missing? {
          if r.Found? {
            Backfill(i, key, r.value, backfills);
          }
          GetEnds(before, View(), key, whims, backfills, i);
          return;
        }
      }
      GetEnds(before, View(), key, whims, backfills, |tiers|);
      return Missing;
    }

    method Set(key: K, value: Stored<V>, whims: seq<Whim<K>>) returns (ok: bool)
      requires Valid() && |whims| == |tiers|
      modifies tiers
      ensures ok == !Fails(whims) && View() == AfterSet(old(View()), key, value, whims)
    {
      ghost var before := View();
      for i := 0 to |tiers|
        invariant forall j | 0 <= j < i ::
                    !whims[j].fails && tiers[j].entries == Written(before[j], key, value, whims[j])
        invariant forall j | i <= j < |tiers| :: tiers[j].entries == before[j]
      {
        ReachedIff(whims, i);
        ok := tiers[i].Set(key, value, whims[i]);
        if !ok {
          return;
        }
      }
      ReachedIff(whims, |tiers|);
      return true;
    }

    method Delete(key: K, whims: seq<Whim<K>>) returns (ok: bool)
      requires Valid() && |whims| == |tiers|
      modifies tiers
      ensures ok == !Fails(whims) && View() == AfterDelete(old(View()), key, whims)
    {
      ghost var before := View();
      for i := 0 to |tiers|
        invariant forall j | 0 <= j < i :: !whims[j].fails && tiers[j].entries == Deleted(before[j], key, whims[j])
        invariant forall j | i <= j < |tiers| :: tiers[j].entries == before[j]
      {
        ReachedIff(whims, i);
        ok := tiers[i].Delete(key, whims[i]);
        if !ok {
          return;
        }
      }
      ReachedIff(whims, |tiers|);
      return true;
    }

    method Clear(whims: seq<Whim<K>>) returns (ok: bool)
      requires Valid() && |whims| == |tiers|
      modifies tiers
      ensures ok == !Fails(whims) && View() == AfterClear(old(View()), whims)
    {
      ghost var before := View();
      for i := 0 to |tiers|
        invariant forall j | 0 <= j < i :: !whims[j].fails && tiers[j].entries == Cleared(before[j], whims[j])
        invariant forall j | i <= j < |tiers| :: tiers[j].entries == before[j]
      {
        ReachedIff(whims, i);
        ok := tiers[i].Clear(whims[i]);
        if !ok {
          return;
        }
      }
      ReachedIff(whims, |tiers|);
      return true;
    }
  }

  /** `New`; null is a panic. */
  method New<K(==), V>(tiers: seq<Tier<K, V>>) returns (s: ChainStore?<K, V>)
    ensures s == null <==> |tiers| < 2
    ensures s != null ==> s.tiers == tiers
    ensures s != null && (forall i, j | 0 <= i < j < |tiers| :: tiers[i] != tiers[j]) ==> s.Valid()
  {
    if |tiers| < 2 {
      return null;
    }
    s := new ChainStore(tiers);
  }

  // ---------- runs ----------

  /** An operation with what every tier does during it. */
  datatype Op<K, V> =
    | GetOp(key: K, whims: seq<Whim<K>>, backfills: seq<Whim<K>>)
    | SetOp(key: K, value: Stored<V>, whims: seq<Whim<K>>)
    | DeleteOp(key: K, whims: seq<Whim<K>>)
    | ClearOp(whims: seq<Whim<K>>)

  predicate FitsTiers<K, V>(op: Op<K, V>, n: nat) {
    |op.whims| == n && (op.GetOp? ==> |op.backfills| == n)
  }

  /** Reads may fail, and so may backfills; writes do not. */
  predicate WriteSucceeds<K, V>(op: Op<K, V>) {
    !op.GetOp? ==> !Fails(op.whims)
  }

  function Step<K(==), V>(tiers: seq<Content<K, V>>, op: Op<K, V>): (after: seq<Content<K, V>>)
    requires FitsTiers(op, |tiers|)
    ensures |after| == |tiers|
  {
    match op
    case GetOp(key, whims, backfills) => AfterGet(tiers, key, whims, backfills)
    case SetOp(key, value, whims) => AfterSet(tiers, key, value, whims)
    case DeleteOp(key, whims) => AfterDelete(tiers, key, whims)
    case ClearOp(whims) => AfterClear(tiers, whims)
  }

  /** The map a caller has in mind: the last value set and not deleted since. */
  function Intended<K(==), V>(ops: seq<Op<K, V>>): map<K, Stored<V>> {
    if ops == [] then map[]
    else
      var m := Intended(ops[..|ops| - 1]);
      match ops[|ops| - 1]
      case GetOp(_, _, _) => m
      case SetOp(key, value, _) => m[key := value]
      case DeleteOp(key, _) => m - {key}
      case ClearOp(_) => map[]
  }

  ghost predicate RunFits<K, V>(ops: seq<Op<K, V>>, n: nat) {
    forall i | 0 <= i < |ops| :: FitsTiers(ops[i], n)
  }

  ghost function Run<K, V>(ops: seq<Op<K, V>>, n: nat): (tiers: seq<Content<K, V>>)
    requires RunFits(ops, n)
    ensures |tiers| == n
  {
    if ops == [] then seq(n, i => map[]) else Step(Run(ops[..|ops| - 1], n), ops[|ops| - 1])
  }

  /** A tier holds nothing but intended values. */
  ghost predicate Holds<K, V>(tier: Content<K, V>, m: map<K, Stored<V>>) {
    forall k | k in tier :: k in m && tier[k] == m[k]
  }

  /** Every tier that holds a key holds its intended value. */
  ghost predicate Coherent<K, V>(tiers: seq<Content<K, V>>, m: map<K, Stored<V>>) {
    forall i | 0 <= i < |tiers| :: Holds(tiers[i], m)
  }

  lemma GetIsIntended<K, V>(tiers: seq<Content<K, V>>, m: map<K, Stored<V>>, key: K, whims: seq<Whim<K>>)
    requires Coherent(tiers, m) && |whims| == |tiers|
    ensures var r := GetResult(tiers, key, whims); r.Found? ==> key in m && r.value == m[key]
  {
    var n := Asked(tiers, key, whims);
    if n != 0 {
      assert Holds(tiers[n - 1], m);
    }
  }

  lemma WriteHolds<K, V>(tier: Content<K, V>, m: map<K, Stored<V>>, key: K, value: Stored<V>, whim: Whim<K>)
    requires Holds(tier, m)
    ensures Holds(tier - whim.evicts, m)
    ensures key in m && m[key] == value ==> Holds(Written(tier, key, value, whim), m)
    ensures !whim.fails ==> Holds(Written(tier, key, value, whim), m[key := value])
  {
  }

  lemma DeleteHolds<K, V>(tier: Content<K, V>, m: map<K, Stored<V>>, key: K, whim: Whim<K>)
    requires Holds(tier, m) && !whim.fails
    ensures Holds(Deleted(tier, key, whim), m - {key})
  {
  }

  lemma GetCoherent<K, V>(tiers: seq<Content<K, V>>, m: map<K, Stored<V>>, key: K, whims: seq<Whim<K>>,
                          backfills: seq<Whim<K>>)
    requires Coherent(tiers, m) && |whims| == |backfills| == |tiers|
    ensures Coherent(AfterGet(tiers, key, whims, backfills), m)
  {
    GetIsIntended(tiers, m, key, whims);
    var r := GetResult(tiers, key, whims);
    hide GetResult, Asked;
    var after := AfterGet(tiers, key, whims, backfills);
    forall i | 0 <= i < |tiers| ensures Holds(after[i], m) {
      var kept := tiers[i] - whims[i].evicts;
      if r.Found? {
        WriteHolds(tiers[i], m, key, r.value, whims[i]);
        WriteHolds(kept, m, key, r.value, backfills[i]);
      } else {
        assert Holds(tiers[i], m) && Holds(kept, m);
      }
    }
  }

  lemma StepCoherent<K, V>(tiers: seq<Content<K, V>>, ops: seq<Op<K, V>>, op: Op<K, V>)
    requires Coherent(tiers, Intended(ops)) && FitsTiers(op, |tiers|) && WriteSucceeds(op)
    ensures Coherent(Step(tiers, op), Intended(ops + [op]))
  {
    assert (ops + [op])[..|ops + [op]| - 1] == ops;
    var m := Intended(ops);
    if op.GetOp? {
      GetCoherent(tiers, m, op.key, op.whims, op.backfills);
    } else {
      ReachedIff(op.whims, |op.whims|);
      hide Reached;
      forall i | 0 <= i < |tiers| ensures Holds(Step(tiers, op)[i], Intended(ops + [op])) {
        assert Holds(tiers[i], m) && !op.whims[i].fails;
        if op.SetOp? {
          WriteHolds(tiers[i], m, op.key, op.value, op.whims[i]);
        } else if op.DeleteOp? {
          DeleteHolds(tiers[i], m, op.key, op.whims[i]);
        }
      }
    }
  }

  /** Coherence on every run without failing writes: whatever the tiers evict, and whichever reads
      and backfills fail, a `Get` returns the intended value or nothing. */
  lemma {:induction false} RunCoherent<K, V>(ops: seq<Op<K, V>>, n: nat)
    requires RunFits(ops, n) && forall i | 0 <= i < |ops| :: WriteSucceeds(ops[i])
    ensures Coherent(Run(ops, n), Intended(ops))
  {
    if ops != [] {
      var before := ops[..|ops| - 1];
      RunCoherent(before, n);
      StepCoherent(Run(before, n), before, ops[|ops| - 1]);
      assert before + [ops[|ops| - 1]] == ops;
    }
  }

  lemma NeverOverwrittenOrDeleted<K, V>(ops: seq<Op<K, V>>, n: nat, key: K, whims: seq<Whim<K>>)
    requires RunFits(ops, n) && (forall i | 0 <= i < |ops| :: WriteSucceeds(ops[i])) && |whims| == n
    ensures var r := GetResult(Run(ops, n), key, whims);
            r.Found? ==> key in Intended(ops) && r.value == Intended(ops)[key]
  {
    RunCoherent(ops, n);
    GetIsIntended(Run(ops, n), Intended(ops), key, whims);
  }

  // ---------- what is not evicted is there ----------

  /** No call of tier i during the operation evicts the key. */
  predicate Keeps<K, V>(op: Op<K, V>, i: nat, key: K)
    requires i < |op.whims| && (op.GetOp? ==> i < |op.backfills|)
  {
    key !in op.whims[i].evicts && (op.GetOp? ==> key !in op.backfills[i].evicts)
  }

  /** The tier has for the key exactly what the map has. */
  predicate Same<K(==), V(==)>(tier: Content<K, V>, m: map<K, Stored<V>>, key: K) {
    if key in m then key in tier && tier[key] == m[key] else key !in tier
  }

  lemma StepSame<K, V>(tiers: seq<Content<K, V>>, ops: seq<Op<K, V>>, op: Op<K, V>, i: nat, key: K)
    requires Coherent(tiers, Intended(ops)) && FitsTiers(op, |tiers|) && WriteSucceeds(op)
    requires i < |tiers| && Keeps(op, i, key) && Same(tiers[i], Intended(ops), key)
    ensures Same(Step(tiers, op)[i], Intended(ops + [op]), key)
  {
    assert (ops + [op])[..|ops + [op]| - 1] == ops;
    if op.GetOp? {
      GetIsIntended(tiers, Intended(ops), op.key, op.whims);
      hide GetResult, Asked;
    } else {
      ReachedIff(op.whims, |op.whims|);
      hide Reached;
    }
  }

  /** On every run without failing writes, a tier from which the key is never evicted holds the key
      exactly if it was set and not deleted since, with the value last set: no operation disturbs other
      keys or loses its own. */
  lemma {:induction false} RunSame<K, V>(ops: seq<Op<K, V>>, n: nat, i: nat, key: K)
    requires RunFits(ops, n) && (forall j | 0 <= j < |ops| :: WriteSucceeds(ops[j]))
    requires i < n && forall j | 0 <= j < |ops| :: Keeps(ops[j], i, key)
    ensures Same(Run(ops, n)[i], Intended(ops), key)
  {
    if ops != [] {
      var before := ops[..|ops| - 1];
      RunCoherent(before, n);
      RunSame(before, n, i, key);
      StepSame(Run(before, n), before, ops[|ops| - 1], i, key);
      assert before + [ops[|ops| - 1]] == ops;
    }
  }

  /** So, if some tier never evicts the key, a `Get` without failing reads finds the key exactly if it
      was set and not deleted since, and with the value last set. */
  lemma GetFinds<K, V>(ops: seq<Op<K, V>>, n: nat, i: nat, key: K, whims: seq<Whim<K>>)
    requires RunFits(ops, n) && (forall j | 0 <= j < |ops| :: WriteSucceeds(ops[j]))
    requires i < n && (forall j | 0 <= j < |ops| :: Keeps(ops[j], i, key))
    requires |whims| == n && key !in whims[i].evicts && forall j | 0 <= j < n :: !whims[j].fails
    ensures GetResult(Run(ops, n), key, whims) ==
            if key in Intended(ops) then Found(Intended(ops)[key]) else Missing
  {
    var tiers, m := Run(ops, n), Intended(ops);
    RunCoherent(ops, n);
    RunSame(ops, n, i, key);
    hide Run, Intended;
    var asked := FirstAnswer(tiers, key, whims);
    AskedIff(tiers, key, whims, asked);
    hide GetResult, Asked;
    if asked < n {
      assert Holds(tiers[asked], m);
    }
  }

  /** The first tier that does not miss the key, or the number of tiers. */
  lemma FirstAnswer<K, V>(tiers: seq<Content<K, V>>, key: K, whims: seq<Whim<K>>) returns (n: nat)
    requires |whims| == |tiers|
    ensures n <= |tiers| && forall j | 0 <= j < n :: Answer(tiers[j], key, whims[j]) == Missing
    ensures n < |tiers| ==> Answer(tiers[n], key, whims[n]) != Missing
  {
    n := 0;
    while n < |tiers| && Answer(tiers[n], key, whims[n]) == Missing
      invariant n <= |tiers| && forall j | 0 <= j < n :: Answer(tiers[j], key, whims[j]) == Missing
    {
      n := n + 1;
    }
  }

  /** What a tier has for a key. */
  function At<K(==), V>(tier: Content<K, V>, key: K): Option<Stored<V>> {
    if key in tier then Some(tier[key]) else None
  }

  /** A `Get` that tier i answers with a value leaves that value in the tiers above it, unless their
      backfill fails or evicts it; it moves no other key, and does not reach the tiers below. */
  lemma GetHeals<K, V>(tiers: seq<Content<K, V>>, key: K, whims: seq<Whim<K>>, backfills: seq<Whim<K>>, i: nat,
                       value: Stored<V>)
    requires |whims| == |backfills| == |tiers| && i < |tiers|
    requires forall j | 0 <= j < i :: Answer(tiers[j], key, whims[j]) == Missing
    requires Answer(tiers[i], key, whims[i]) == Found(value)
    ensures var after := AfterGet(tiers, key, whims, backfills);
            && (forall j | 0 <= j < i ::
                  At(after[j], key) == if backfills[j].fails || key in backfills[j].evicts then None else Some(value))
            && (forall j, k | 0 <= j < i && k != key ::
                  At(after[j], k) == if k in whims[j].evicts + backfills[j].evicts then None else At(tiers[j], k))
            && after[i] == tiers[i] - whims[i].evicts && after[i + 1..] == tiers[i + 1..]
  {
    AskedIff(tiers, key, whims, i);
    hide GetResult, Asked;
  }

  /** A `Set` that fails at tier `failed`, or nowhere: the tiers before have the value, none loses
      another key except by eviction, and the tiers behind are not reached. */
  lemma SetEffect<K(!new), V>(tiers: seq<Content<K, V>>, key: K, value: Stored<V>, whims: seq<Whim<K>>, failed: nat)
    requires |whims| == |tiers| && failed <= |tiers| && (forall j | 0 <= j < failed :: !whims[j].fails)
    requires failed < |tiers| ==> whims[failed].fails
    ensures var after := AfterSet(tiers, key, value, whims);
            && (forall j, k | 0 <= j < |tiers| && j <= failed ::
                  At(after[j], k) == if k in whims[j].evicts then None
                                     else if k == key && j < failed then Some(value) else At(tiers[j], k))
            && forall j | failed < j < |tiers| :: after[j] == tiers[j]
  {
    ReachedIff(whims, failed);
    hide Reached;
  }

  /** The same for a `Delete`: the tiers before have lost the key and no other. */
  lemma DeleteEffect<K(!new), V>(tiers: seq<Content<K, V>>, key: K, whims: seq<Whim<K>>, failed: nat)
    requires |whims| == |tiers| && failed <= |tiers| && (forall j | 0 <= j < failed :: !whims[j].fails)
    requires failed < |tiers| ==> whims[failed].fails
    ensures var after := AfterDelete(tiers, key, whims);
            && (forall j, k | 0 <= j < |tiers| && j <= failed ::
                  At(after[j], k) == if k in whims[j].evicts || (k == key && j < failed) then None else At(tiers[j], k))
            && forall j | failed < j < |tiers| :: after[j] == tiers[j]
  {
    ReachedIff(whims, failed);
    hide Reached;
  }

  // ---------- failing writes ----------

  /** After a `Set` that failed at some tier the chain agrees with the new value exactly if no tier
      from that one on still holds another value for the key. */
  lemma FailedSetCoherentIff<K, V>(tiers: seq<Content<K, V>>, m: map<K, Stored<V>>, key: K, value: Stored<V>,
                                   whims: seq<Whim<K>>, failed: nat)
    requires Coherent(tiers, m) && |whims| == |tiers| && failed < |tiers|
    requires whims[failed].fails && forall j | 0 <= j < failed :: !whims[j].fails
    ensures Coherent(AfterSet(tiers, key, value, whims), m[key := value]) <==>
              (key in tiers[failed] && key !in whims[failed].evicts ==> tiers[failed][key] == value)
              && forall j | failed < j < |tiers| && key in tiers[j] :: tiers[j][key] == value
  {
    ReachedIff(whims, failed);
    hide Reached;
    var after := AfterSet(tiers, key, value, whims);
    var m' := m[key := value];
    forall j | 0 <= j < |tiers| && (j < failed || key !in after[j] || after[j][key] == value)
      ensures Holds(after[j], m')
    {
      assert Holds(tiers[j], m);
      if j < failed {
        WriteHolds(tiers[j], m, key, value, whims[j]);
      }
    }
    if Coherent(after, m') {
      assert Holds(after[failed], m');
      forall j | failed < j < |tiers| && key in tiers[j] ensures tiers[j][key] == value {
        assert Holds(after[j], m');
      }
    }
  }

  /** After a `Delete` that failed at some tier the chain has forgotten the key exactly if no tier from
      that one on still holds it. */
  lemma FailedDeleteCoherentIff<K, V>(tiers: seq<Content<K, V>>, m: map<K, Stored<V>>, key: K, whims: seq<Whim<K>>,
                                      failed: nat)
    requires Coherent(tiers, m) && |whims| == |tiers| && failed < |tiers|
    requires whims[failed].fails && forall j | 0 <= j < failed :: !whims[j].fails
    ensures Coherent(AfterDelete(tiers, key, whims), m - {key}) <==>
              (key !in tiers[failed] || key in whims[failed].evicts)
              && forall j | failed < j < |tiers| :: key !in tiers[j]
  {
    ReachedIff(whims, failed);
    hide Reached;
    var after := AfterDelete(tiers, key, whims);
    forall j | 0 <= j < |tiers| && (j < failed || key !in after[j]) ensures Holds(after[j], m - {key}) {
      assert Holds(tiers[j], m);
      if j < failed {
        DeleteHolds(tiers[j], m, key, whims[j]);
      }
    }
    if Coherent(after, m - {key}) {
      assert Holds(after[failed], m - {key});
      forall j | failed < j < |tiers| ensures key !in tiers[j] {
        assert Holds(after[j], m - {key});
      }
    }
  }

  /** After a `Clear` that failed at some tier the chain is empty exactly if that tier has evicted
      everything and those behind it held nothing. */
  lemma FailedClearCoherentIff<K, V>(tiers: seq<Content<K, V>>, whims: seq<Whim<K>>, failed: nat)
    requires |whims| == |tiers| && failed < |tiers|
    requires whims[failed].fails && forall j | 0 <= j < failed :: !whims[j].fails
    ensures Coherent(AfterClear(tiers, whims), map[]) <==>
              tiers[failed].Keys <= whims[failed].evicts && forall j | failed < j < |tiers| :: tiers[j] == map[]
  {
    ReachedIff(whims, failed);
    hide Reached;
    var after := AfterClear(tiers, whims);
    forall j | 0 <= j < |tiers| ensures Holds(after[j], map[]) <==> after[j] == map[] {
      HoldsNothing(after[j]);
    }
    NothingLeft(tiers[failed], whims[failed].evicts);
    assert forall j | 0 <= j < failed :: after[j] == map[];
    assert after[failed] == tiers[failed] - whims[failed].evicts;
    assert forall j | failed < j < |tiers| :: after[j] == tiers[j];
    assert Coherent(after, map[]) <==> forall j | 0 <= j < |tiers| :: after[j] == map[];
  }

  lemma HoldsNothing<K, V>(tier: Content<K, V>)
    ensures Holds(tier, map[]) <==> tier == map[]
  {
    if Holds(tier, map[]) {
      assert tier.Keys == {};
    }
  }

  lemma NothingLeft<K, V>(tier: Content<K, V>, evicts: set<K>)
    ensures tier - evicts == map[] <==> tier.Keys <= evicts
  {
    assert (tier - evicts).Keys == tier.Keys - evicts;
    if tier.Keys <= evicts {
      assert (tier - evicts).Keys == {};
    } else {
      var k :| k in tier && k !in evicts;
      assert k in tier - evicts;
    }
  }

  /** So a failed `Set` can be seen and then lost again: the new value is read from the first tier,
      and once that has evicted it, the old one from the second. */
  lemma FailedSetGoesBack<K(!new), V>(key: K, v1: Stored<V>, v2: Stored<V>)
    ensures var calm, broken, evicting := Whim({}, false), Whim({}, true), Whim({key}, false);
            var ops := [SetOp(key, v1, [calm, calm]), SetOp(key, v2, [calm, broken])];
            RunFits(ops, 2)
            && GetResult(Run(ops, 2), key, [calm, calm]) == Found(v2)
            && GetResult(Run(ops, 2), key, [evicting, calm]) == Found(v1)
  {
    var calm: Whim<K>, broken: Whim<K>, evicting: Whim<K> := Whim({}, false), Whim({}, true), Whim({key}, false);
    var first: seq<Op<K, V>> := [SetOp(key, v1, [calm, calm])];
    var ops := first + [SetOp(key, v2, [calm, broken])];
    assert ops[..1] == first && first[..0] == [];
    ReachedIff([calm, calm], 2);
    ReachedIff([calm, broken], 1);
    var empty: seq<Content<K, V>> := seq(2, i => map[]);
    var m1: Content<K, V>, m2: Content<K, V> := map[key := v1], map[key := v2];
    assert Written(map[], key, v1, calm) == m1;
    assert Written(m1, key, v2, calm) == m2 && Written(m1, key, v2, broken) == m1;
    assert AfterSet(empty, key, v1, [calm, calm]) == [m1, m1];
    assert Run(first, 2) == [m1, m1];
    assert AfterSet([m1, m1], key, v2, [calm, broken]) == [m2, m1];
    assert m1 - {} == m1 && m2 - {} == m2;
    AskedIff([m2, m1], key, [calm, calm], 0);
    AskedIff([m2, m1], key, [evicting, calm], 1);
  }
}
