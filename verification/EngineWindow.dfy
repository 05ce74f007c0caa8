/** How often the cache computes. Without a stale window, and with `GetOrCompute` as the only writer,
    a computation for a key begins only after the value of the previous one has lapsed. */
module EngineWindow {
  import opened Envelope
  import opened Flights
  import opened Engine
  import opened EngineSafety

  /** The policies under which no background refresh ever runs. */
  predicate ForegroundOnly(p: Policy) {
    p.staleTTL == 0 || p.noExpiration
  }

  /** No explicit Set, nothing removed, and a clock that does not go back. */
  predicate QuietAction<K, C, V, E, P>(s: World<K, C, V, E, P>, a: Action<K, C, V, E, P>) {
    !a.CallSet? && !a.Remove? && (a.Tick? ==> s.clock <= a.now)
  }

  ghost predicate QuietRun<K, C, V, E, P>(c: Config, s: World<K, C, V, E, P>, actions: seq<Action<K, C, V, E, P>>) {
    Throughout(c, s, actions, (w, a) => QuietAction(w, a))
  }

  /** Nothing stored under `k` is fresh at `now`, or ever again. */
  predicate Lapsed<K(==), V>(store: map<K, Stored<V>>, k: K, now: Time) {
    k in store ==> !store[k].noExpire && store[k].freshUntil < now
  }

  predicate StageOnTime<K(==), V, E, P>(start: Time, clock: Time, store: map<K, Stored<V>>, k: K,
                                        stage: Stage<V, E, P>) {
    match stage
    case RecheckFresh(now) => now <= clock
    case RecheckEntry(now) => now <= clock
    case Begin => Lapsed(store, k, clock)
    case Computing(began) => start <= began <= clock && Lapsed(store, k, began)
    case SetClock(began, _) => start <= began <= clock && Lapsed(store, k, began)
    case SetWrite(began, _, now) => start <= began <= now <= clock && Lapsed(store, k, began)
    case _ => true
  }

  predicate ThreadOnTime<K(==), C, V, E, P>(start: Time, clock: Time, store: map<K, Stored<V>>, pc: PC<K, C, V, E, P>) {
    match pc
    case AtRefresh(_, _, _) => false
    case PutClock(_, _) => false
    case PutWrite(_, _, _) => false
    case Leading(k, _, _, _, background, stage) => !background && StageOnTime(start, clock, store, k, stage)
    case _ => true
  }

  predicate EntryOnTime<V>(p: Policy, e: Stored<V>) {
    e.noExpire == p.noExpiration && (e.noExpire || e.staleUntil == ZERO_TIME)
  }

  /** The stored value outlasts the window, whose length is at least the ttl. */
  predicate WindowHeld<K(==), V>(p: Policy, start: Time, clock: Time, store: map<K, Stored<V>>, w: Window<K>) {
    && start <= w.began <= clock && w.began + p.ttl <= w.until
    && w.key in store && (store[w.key].noExpire || w.until <= store[w.key].freshUntil)
  }

  predicate Disjoint<K(==)>(p: Policy, a: Window<K>, b: Window<K>) {
    a.key == b.key ==> a.until < b.began && !p.noExpiration
  }

  ghost predicate OnTime<K, C, V, E, P>(c: Config, start: Time, s: World<K, C, V, E, P>) {
    && start <= s.clock
    && (forall k | k in s.store :: EntryOnTime(c.policy, s.store[k]))
    && (forall t | t in s.threads :: ThreadOnTime(start, s.clock, s.store, s.threads[t]))
    && (forall i | 0 <= i < |s.windows| :: WindowHeld(c.policy, start, s.clock, s.store, s.windows[i]))
    && (forall i, j | 0 <= i < j < |s.windows| :: Disjoint(c.policy, s.windows[i], s.windows[j]))
  }

  // ---------- every quiet step keeps it ----------

  lemma LocalOnTime<K, C, V, E, P>(c: Config, start: Time, s: World<K, C, V, E, P>, pc: PC<K, C, V, E, P>,
                                   x: Choice<V, E, P>)
    requires ValidPolicy(c.policy) && ForegroundOnly(c.policy) && start <= s.clock
    requires pc.key in s.store ==> EntryOnTime(c.policy, s.store[pc.key])
    requires ThreadOnTime(start, s.clock, s.store, pc) && Local(c, s, pc, x).Some?
    ensures ThreadOnTime(start, s.clock, s.store, Local(c, s, pc, x).value)
  {
  }

  lemma GotoOnTime<K, C, V, E, P>(c: Config, start: Time, s: World<K, C, V, E, P>, t: Tid, pc: PC<K, C, V, E, P>)
    requires OnTime(c, start, s) && ThreadOnTime(start, s.clock, s.store, pc)
    ensures OnTime(c, start, Goto(s, t, pc))
  {
  }

  lemma TickOnTime<K, C, V, E, P>(c: Config, start: Time, s: World<K, C, V, E, P>, now: Time)
    requires OnTime(c, start, s) && s.clock <= now
    ensures OnTime(c, start, s.(clock := now))
  {
  }

  /** Only the leader of a key writes it, so no other computation for the key is under way. */
  lemma OthersOnTime<K, C, V, E, P>(c: Config, start: Time, s: World<K, C, V, E, P>, t: Tid, u: Tid, e: Stored<V>)
    requires Safe(s) && OnTime(c, start, s)
    requires t in s.threads && s.threads[t].Leading? && s.threads[t].stage.SetWrite?
    requires u in s.threads && u != t
    ensures ThreadOnTime(start, s.clock, s.store[s.threads[t].key := e], s.threads[u])
  {
    assert ThreadOnTime(start, s.clock, s.store, s.threads[u]);
    assert ThreadOk(s, t) && ThreadOk(s, u);
  }

  /** An earlier window is over when a later computation of its key begins, and outlasted by its value. */
  lemma WindowOnTime<K, V>(p: Policy, start: Time, clock: Time, store: map<K, Stored<V>>, w: Window<K>, k: K, v: V,
                           began: Time, now: Time)
    requires ValidPolicy(p) && WindowHeld(p, start, clock, store, w)
    requires start <= began <= now <= clock && Lapsed(store, k, began)
    requires k in store ==> EntryOnTime(p, store[k])
    ensures WindowHeld(p, start, clock, store[k := Seal(p, v, now)], w) && Disjoint(p, w, Window(k, began, now + p.ttl))
  {
  }

  lemma NewWindowHeld<K, V>(p: Policy, start: Time, clock: Time, store: map<K, Stored<V>>, k: K, v: V, began: Time,
                            now: Time)
    requires ValidPolicy(p) && start <= began <= now <= clock
    ensures WindowHeld(p, start, clock, store[k := Seal(p, v, now)], Window(k, began, now + p.ttl))
  {
  }

  /** The leader's write, with the window it opens when it succeeds. */
  lemma WriteOnTime<K, C, V, E, P>(c: Config, start: Time, s: World<K, C, V, E, P>, t: Tid, pc: PC<K, C, V, E, P>,
                                   success: bool)
    requires ValidPolicy(c.policy) && ForegroundOnly(c.policy) && Safe(s) && OnTime(c, start, s)
    requires t in s.threads && s.threads[t].Leading? && s.threads[t].stage.SetWrite?
    requires ThreadOnTime(start, s.clock, s.store, pc) && pc.Leading? && pc.stage.Publishing?
    ensures var stage, k := s.threads[t].stage, s.threads[t].key;
            var added := if success then [Window(k, stage.began, stage.now + c.policy.ttl)] else [];
            OnTime(c, start, Goto(s, t, pc).(store := s.store[k := Seal(c.policy, stage.value, stage.now)],
                                             windows := s.windows + added))
  {
    var stage, k := s.threads[t].stage, s.threads[t].key;
    var e := Seal(c.policy, stage.value, stage.now);
    var store' := s.store[k := e];
    var added := if success then [Window(k, stage.began, stage.now + c.policy.ttl)] else [];
    var windows' := s.windows + added;
    assert ThreadOnTime(start, s.clock, s.store, s.threads[t]);
    assert EntryOnTime(c.policy, e) && ThreadOnTime(start, s.clock, store', pc);
    assert start <= stage.began <= stage.now <= s.clock && Lapsed(s.store, k, stage.began);
    hide Safe, Disjoint, WindowHeld, ThreadOnTime, EntryOnTime, Seal, Lapsed;
    forall u | u in s.threads && u != t ensures ThreadOnTime(start, s.clock, store', s.threads[u]) {
      OthersOnTime(c, start, s, t, u, e);
    }
    forall i | 0 <= i < |windows'|
      ensures WindowHeld(c.policy, start, s.clock, store', windows'[i])
      ensures i < |s.windows| ==> forall w | w in added :: Disjoint(c.policy, windows'[i], w)
    {
      if i < |s.windows| {
        WindowOnTime(c.policy, start, s.clock, s.store, s.windows[i], k, stage.value, stage.began, stage.now);
      } else {
        NewWindowHeld(c.policy, start, s.clock, s.store, k, stage.value, stage.began, stage.now);
      }
    }
  }

  lemma TableOnTime<K, C, V, E, P>(c: Config, start: Time, s: World<K, C, V, E, P>, table: Table<K, V, E, P>)
    requires OnTime(c, start, s)
    ensures OnTime(c, start, s.(table := table))
  {
  }

  lemma FailedWriteOnTime<K, C, V, E, P>(c: Config, start: Time, s: World<K, C, V, E, P>, t: Tid, error: E, wrote: bool)
    requires ValidPolicy(c.policy) && ForegroundOnly(c.policy) && Safe(s) && OnTime(c, start, s)
    requires t in s.threads && s.threads[t].Leading? && s.threads[t].stage.SetWrite?
    ensures var pc := s.threads[t]; var stage := pc.stage;
            var written := s.store[pc.key := Seal(c.policy, stage.value, stage.now)];
            OnTime(c, start, Goto(s, t, pc.(stage := Publishing(Err(stage.value, error))))
                             .(store := if wrote then written else s.store))
  {
    var pc := s.threads[t];
    assert ThreadOnTime(start, s.clock, s.store, pc);
    hide OnTime, Safe, Seal;
    var failed := pc.(stage := Publishing(Err(pc.stage.value, error)));
    if wrote {
      WriteOnTime(c, start, s, t, failed, false);
      assert s.windows + [] == s.windows;
    } else {
      GotoOnTime(c, start, s, t, failed);
    }
  }

  lemma SetWriteOnTime<K, C, V, E, P>(c: Config, start: Time, s: World<K, C, V, E, P>, t: Tid, x: Choice<V, E, P>)
    requires ValidPolicy(c.policy) && ForegroundOnly(c.policy) && Safe(s) && OnTime(c, start, s)
    requires t in s.threads && s.threads[t].Leading? && s.threads[t].stage.SetWrite?
    requires SharedStage(c, s, t, s.threads[t], x).Some?
    ensures OnTime(c, start, SharedStage(c, s, t, s.threads[t], x).value)
  {
    var pc := s.threads[t];
    assert ThreadOnTime(start, s.clock, s.store, pc);
    hide OnTime, Safe, Seal;
    if x.Go? {
      var wrote := pc.(stage := Publishing(Ok(pc.stage.value)));
      assert ThreadOnTime(start, s.clock, s.store, wrote);
      hide ThreadOnTime;
      WriteOnTime(c, start, s, t, wrote, true);
    } else {
      FailedWriteOnTime(c, start, s, t, x.error, x.wrote);
    }
  }

  lemma SharedOnTime<K, C, V, E, P>(c: Config, start: Time, s: World<K, C, V, E, P>, t: Tid, x: Choice<V, E, P>)
    requires ValidPolicy(c.policy) && ForegroundOnly(c.policy) && Safe(s) && OnTime(c, start, s)
    requires t in s.threads && Shared(c, s, t, s.threads[t], x).Some?
    ensures OnTime(c, start, Shared(c, s, t, s.threads[t], x).value)
  {
    var pc := s.threads[t];
    assert ThreadOnTime(start, s.clock, s.store, pc);
    hide OnTime, Safe;
    if pc.Leading? && pc.stage.SetWrite? {
      hide SharedStage;
      SetWriteOnTime(c, start, s, t, x);
    } else {
      var s' := Shared(c, s, t, pc, x).value;
      TableOnTime(c, start, s, s'.table);
      GotoOnTime(c, start, s.(table := s'.table), t, s'.threads[t]);
    }
  }

  lemma ApplyOnTime<K, C, V, E, P>(c: Config, start: Time, s: World<K, C, V, E, P>, a: Action<K, C, V, E, P>)
    requires ValidPolicy(c.policy) && ForegroundOnly(c.policy) && Safe(s) && OnTime(c, start, s)
    requires QuietAction(s, a) && Apply(c, s, a).Some?
    ensures OnTime(c, start, Apply(c, s, a).value)
  {
    match a
    case Tick(now) => TickOnTime(c, start, s, now);
    case Call(t, _, _) => hide OnTime; GotoOnTime(c, start, s, t, Apply(c, s, a).value.threads[t]);
    case CallGet(t, _) => hide OnTime; GotoOnTime(c, start, s, t, Apply(c, s, a).value.threads[t]);
    case Step(t, x) =>
      if Local(c, s, s.threads[t], x).Some? {
        assert ThreadOnTime(start, s.clock, s.store, s.threads[t]);
        LocalOnTime(c, start, s, s.threads[t], x);
        hide OnTime, Local;
        GotoOnTime(c, start, s, t, Local(c, s, s.threads[t], x).value);
      } else {
        hide OnTime, Local;
        SharedOnTime(c, start, s, t, x);
      }
  }

  lemma {:induction false} ExecOnTime<K, C, V, E, P>(c: Config, start: Time, actions: seq<Action<K, C, V, E, P>>)
    requires ValidPolicy(c.policy) && ForegroundOnly(c.policy)
    requires Exec(c, Init(start), actions).Some? && QuietRun(c, Init(start), actions)
    ensures OnTime(c, start, Exec(c, Init(start), actions).value)
  {
    if actions != [] {
      var before := actions[..|actions| - 1];
      ThroughoutPrefix(c, Init(start), actions, (w, a) => QuietAction(w, a));
      ExecOnTime(c, start, before);
      ExecSafe(c, start, before);
      ApplyOnTime(c, start, Exec(c, Init<K, C, V, E, P>(start), before).value, actions[|actions| - 1]);
    }
  }

  // ---------- what it means ----------

  /** A computation for a key, successful or not, begins strictly after the end of every window
      that a successful computation has opened for the key; under an unlimited policy, never. */
  lemma ComputeBeginsAfterWindow<K, C, V, E, P>(c: Config, start: Time, actions: seq<Action<K, C, V, E, P>>, t: Tid,
                                                i: nat)
    requires ValidPolicy(c.policy) && ForegroundOnly(c.policy)
    requires Exec(c, Init(start), actions).Some? && QuietRun(c, Init(start), actions)
    requires var s := Exec(c, Init(start), actions).value;
             && t in s.threads && s.threads[t].Leading? && s.threads[t].stage.Computing?
             && i < |s.windows| && s.windows[i].key == s.threads[t].key
    ensures var s := Exec(c, Init(start), actions).value;
            s.windows[i].until < s.threads[t].stage.began && !c.policy.noExpiration
  {
    ExecOnTime(c, start, actions);
    var s := Exec(c, Init(start), actions).value;
    assert ThreadOnTime(start, s.clock, s.store, s.threads[t]);
    assert WindowHeld(c.policy, start, s.clock, s.store, s.windows[i]);
    assert EntryOnTime(c.policy, s.store[s.windows[i].key]);
  }

  /** On a run with no explicit Set and no removal, the windows of a key do not overlap. */
  ghost predicate OncePerWindow<K, C, V, E, P>(c: Config, s: World<K, C, V, E, P>) {
    forall i, j | 0 <= i < j < |s.windows| :: Disjoint(c.policy, s.windows[i], s.windows[j])
  }

  /** The number of successful computations for `k`. */
  function Count<K(==)>(ws: seq<Window<K>>, k: K): nat {
    if ws == [] then 0
    else Count(ws[..|ws| - 1], k) + if ws[|ws| - 1].key == k then 1 else 0
  }

  lemma {:induction false} CountBound<K>(p: Policy, start: Time, ws: seq<Window<K>>, k: K, next: Time)
    requires ValidPolicy(p) && start <= next
    requires forall i | 0 <= i < |ws| :: start <= ws[i].began && ws[i].began + p.ttl <= ws[i].until
    requires forall i, j | 0 <= i < j < |ws| :: Disjoint(p, ws[i], ws[j])
    requires forall i | 0 <= i < |ws| && ws[i].key == k :: ws[i].until < next
    ensures start + Count(ws, k) * (p.ttl + 1) <= next
  {
    if ws != [] {
      var n := |ws| - 1;
      var before, w := ws[..n], ws[n];
      if w.key == k {
        CountBound(p, start, before, k, w.began);
        assert (Count(before, k) + 1) * (p.ttl + 1) == Count(before, k) * (p.ttl + 1) + p.ttl + 1;
      } else {
        CountBound(p, start, before, k, next);
      }
    }
  }

  /** From `start` to `clock` there is room for n computations that begin more than a ttl apart. */
  predicate WithinRate(p: Policy, start: Time, n: nat, clock: Time) {
    start + (n - 1) * (p.ttl + 1) <= clock
  }

  /** A rate limit: in any run that lasts until `clock`, a key is successfully computed at most
      1 + (clock - start) / (ttl + 1) times; under an unlimited policy at most once. */
  lemma ComputeRate<K, C, V, E, P>(c: Config, start: Time, actions: seq<Action<K, C, V, E, P>>, k: K)
    requires ValidPolicy(c.policy) && ForegroundOnly(c.policy)
    requires Exec(c, Init(start), actions).Some? && QuietRun(c, Init(start), actions)
    ensures var s := Exec(c, Init(start), actions).value;
            && WithinRate(c.policy, start, Count(s.windows, k), s.clock)
            && (c.policy.noExpiration ==> Count(s.windows, k) <= 1)
  {
    ExecOnTime(c, start, actions);
    var s := Exec(c, Init(start), actions).value;
    hide Exec, OnTime, Throughout, Count, ValidPolicy, Disjoint, WithinRate;
    OnTimeWindows(c, start, s);
    CountByLast(c.policy, start, s.windows, k, s.clock);
  }

  lemma OnTimeWindows<K, C, V, E, P>(c: Config, start: Time, s: World<K, C, V, E, P>)
    requires OnTime(c, start, s)
    ensures start <= s.clock
    ensures forall i | 0 <= i < |s.windows| ::
              start <= s.windows[i].began <= s.clock && s.windows[i].began + c.policy.ttl <= s.windows[i].until
    ensures forall i, j | 0 <= i < j < |s.windows| :: Disjoint(c.policy, s.windows[i], s.windows[j])
  {
    forall i | 0 <= i < |s.windows|
      ensures start <= s.windows[i].began <= s.clock && s.windows[i].began + c.policy.ttl <= s.windows[i].until
    {
      assert WindowHeld(c.policy, start, s.clock, s.store, s.windows[i]);
    }
  }

  lemma {:induction false} CountByLast<K>(p: Policy, start: Time, ws: seq<Window<K>>, k: K, clock: Time)
    requires ValidPolicy(p) && start <= clock
    requires forall i | 0 <= i < |ws| :: start <= ws[i].began <= clock && ws[i].began + p.ttl <= ws[i].until
    requires forall i, j | 0 <= i < j < |ws| :: Disjoint(p, ws[i], ws[j])
    ensures WithinRate(p, start, Count(ws, k), clock)
    ensures p.noExpiration ==> Count(ws, k) <= 1
  {
    if ws != [] {
      var n := |ws| - 1;
      if ws[n].key == k {
        CountBound(p, start, ws[..n], k, ws[n].began);
        if p.noExpiration {
          NoneBefore(p, ws, n);
        }
      } else {
        CountByLast(p, start, ws[..n], k, clock);
      }
    }
  }

  lemma {:induction false} NoneBefore<K>(p: Policy, ws: seq<Window<K>>, n: nat)
    requires n < |ws| && p.noExpiration
    requires forall i, j | 0 <= i < j < |ws| :: Disjoint(p, ws[i], ws[j])
    ensures Count(ws[..n], ws[n].key) == 0
  {
    NoneAtAll(ws[..n], ws[n].key);
  }

  lemma {:induction false} NoneAtAll<K>(ws: seq<Window<K>>, k: K)
    requires forall i | 0 <= i < |ws| :: ws[i].key != k
    ensures Count(ws, k) == 0
  {
    if ws != [] {
      NoneAtAll(ws[..|ws| - 1], k);
    }
  }
}
