/** Exactly when the computations of a key are at least a ttl apart. */
module EngineOverlap {
  import opened Envelope
  import opened Flights
  import opened Engine
  import opened EngineWindow
  import opened EngineSolo

  /** With a stale window, two calls that have both read the stale entry can each start a refresh,
      one after the other: `refresh` does not look again whether the entry is fresh by now. */
  lemma StaleWindowOverlaps<K(!new), C(!new), V(!new), E(!new), P(!new)>(c: Config, k: K, fn: C, v: V)
    returns (actions: seq<Action<K, C, V, E, P>>)
    requires ValidPolicy(c.policy) && !ForegroundOnly(c.policy) && !c.bypass
    ensures Exec(c, Init(0), actions).Some? && QuietRun(c, Init(0), actions)
    ensures !OncePerWindow(c, Exec(c, Init(0), actions).value)
  {
    var allowed := Quiet<K, C, V, E, P>();
    var s0: World<K, C, V, E, P> := Init(0);
    QuietAllowsSteps<K, C, V, E, P>();
    assert Path(c, allowed, s0, [], s0);
    hide Path, Throughout, AllowsSteps, Exec;
    actions := SoloMiss(c, allowed, s0, [], s0, 0, k, fn, v);
    var s1 := Goto(Computed(c, s0.(table := Start(s0.table, k, 0)), 0, k, v), 0, Done(k, Ok(v), Led(0, None)));
    var now := c.policy.ttl + 1;
    actions := Wait(c, allowed, s0, actions, s1, now);
    var s2: World<K, C, V, E, P>;
    actions, s2 := TwoRefreshes(c, s0, actions, s1.(clock := now), k, fn, v);
    QuietPath(c, s0, actions, s2);
    assert !Disjoint(c.policy, s2.windows[1], s2.windows[2]);
  }

  ghost function Quiet<K, C, V, E, P>(): (World<K, C, V, E, P>, Action<K, C, V, E, P>) -> bool {
    (w, a) => QuietAction(w, a)
  }

  lemma QuietAllowsSteps<K(!new), C(!new), V(!new), E(!new), P(!new)>()
    ensures AllowsSteps(Quiet<K, C, V, E, P>())
  {
  }

  /** `s` after thread t, which has read the stale value `served`, has started refresh u and that
      has run to its end. */
  function Refreshed<K, C, V, E, P>(c: Config, s: World<K, C, V, E, P>, t: Tid, u: Tid, k: K, served: V, v: V)
    : World<K, C, V, E, P> {
    var f := |s.table.flights|;
    Goto(Computed(c, Goto(s, t, Done(k, Ok(served), StaleHit)).(table := Start(s.table, k, u)), f, k, v),
         u, Done(k, Ok(v), Led(f, None)))
  }

  lemma RefreshedFacts<K, C, V, E, P>(c: Config, s: World<K, C, V, E, P>, t: Tid, u: Tid, k: K, served: V, v: V)
    requires t in s.threads
    ensures var s' := Refreshed(c, s, t, u, k, served, v);
            && s'.crashed == s.crashed && s'.clock == s.clock && k !in s'.table.registered
            && s'.windows == s.windows + [Window(k, s.clock, s.clock + c.policy.ttl)]
            && s'.threads.Keys == s.threads.Keys + {u}
            && forall w | w in s.threads && w != t && w != u :: s'.threads[w] == s.threads[w]
  {
  }

  /** Threads 1 and 2 call and read a stale entry. */
  lemma TwoStaleReaders<K(!new), C(!new), V(!new), E(!new), P(!new)>(
      c: Config, s0: World<K, C, V, E, P>, before: seq<Action<K, C, V, E, P>>, s: World<K, C, V, E, P>, k: K, fn: C)
    returns (actions: seq<Action<K, C, V, E, P>>)
    requires Path(c, Quiet(), s0, before, s) && !s.crashed && !c.bypass && 1 !in s.threads && 2 !in s.threads
    requires k in s.store && State(s.store[k], s.clock) == Stale && k !in s.table.registered
    ensures var stale := AtRefresh(k, fn, s.store[k].value);
            Path(c, Quiet(), s0, actions, Goto(Goto(s, 1, stale), 2, stale))
  {
    var allowed := Quiet<K, C, V, E, P>();
    QuietAllowsSteps<K, C, V, E, P>();
    hide Path, Throughout, AllowsSteps, Exec;
    var stale := AtRefresh(k, fn, s.store[k].value);
    actions := Arrive(c, allowed, s0, before, s, 1, k, fn);
    actions := Arrive(c, allowed, s0, actions, Goto(s, 1, stale), 2, k, fn);
  }

  /** The refresh that thread t starts after its stale read. */
  lemma OneRefresh<K(!new), C(!new), V(!new), E(!new), P(!new)>(
      c: Config, s0: World<K, C, V, E, P>, before: seq<Action<K, C, V, E, P>>, s: World<K, C, V, E, P>, t: Tid,
      u: Tid, k: K, fn: C, served: V, v: V)
    returns (actions: seq<Action<K, C, V, E, P>>)
    requires Path(c, Quiet(), s0, before, s) && !s.crashed && u !in s.threads && k !in s.table.registered
    requires t in s.threads && s.threads[t] == AtRefresh(k, fn, served)
    ensures Path(c, Quiet(), s0, actions, Refreshed(c, s, t, u, k, served, v))
  {
    QuietAllowsSteps<K, C, V, E, P>();
    hide Path, Throughout, AllowsSteps, Exec;
    assert s.threads[t := AtRefresh(k, fn, served)] == s.threads;
    actions := SoloRefresh(c, Quiet(), s0, before, s, t, u, k, fn, served, v);
  }

  /** Threads 1 and 2 read a stale entry; then each starts a refresh that runs to its end. */
  lemma TwoRefreshes<K(!new), C(!new), V(!new), E(!new), P(!new)>(
      c: Config, s0: World<K, C, V, E, P>, before: seq<Action<K, C, V, E, P>>, s: World<K, C, V, E, P>, k: K, fn: C,
      v: V)
    returns (actions: seq<Action<K, C, V, E, P>>, s': World<K, C, V, E, P>)
    requires Path(c, Quiet(), s0, before, s) && !s.crashed && !c.bypass
    requires k in s.store && State(s.store[k], s.clock) == Stale && k !in s.table.registered
    requires forall t | t in s.threads :: t == 0
    ensures Path(c, Quiet(), s0, actions, s')
    ensures var w := Window(k, s.clock, s.clock + c.policy.ttl); s'.windows == s.windows + [w, w]
  {
    hide Path, Quiet, Refreshed;
    var served := s.store[k].value;
    var stale := AtRefresh(k, fn, served);
    actions := TwoStaleReaders(c, s0, before, s, k, fn);
    var s1 := Goto(Goto(s, 1, stale), 2, stale);
    actions := OneRefresh(c, s0, actions, s1, 2, 3, k, fn, served, v);
    RefreshedFacts(c, s1, 2, 3, k, served, v);
    var s2 := Refreshed(c, s1, 2, 3, k, served, v);
    actions := OneRefresh(c, s0, actions, s2, 1, 4, k, fn, served, v);
    RefreshedFacts(c, s2, 1, 4, k, served, v);
    s' := Refreshed(c, s2, 1, 4, k, served, v);
  }

  lemma QuietPath<K, C, V, E, P>(c: Config, s0: World<K, C, V, E, P>, actions: seq<Action<K, C, V, E, P>>,
                                 s: World<K, C, V, E, P>)
    requires Path(c, Quiet(), s0, actions, s)
    ensures Exec(c, s0, actions) == Some(s) && QuietRun(c, s0, actions)
  {
  }

  /** The computations of every key are more than a ttl apart, on every run in which only
      `GetOrCompute` writes and nothing is removed, if and only if there is no stale window or no
      expiration at all. */
  lemma OncePerWindowIff<K(!new), C(!new), V(!new), E(!new), P(!new)>(c: Config, k: K, fn: C, v: V)
    requires ValidPolicy(c.policy) && !c.bypass
    ensures ForegroundOnly(c.policy) <==>
              forall start, actions: seq<Action<K, C, V, E, P>> |
                Exec(c, Init(start), actions).Some? && QuietRun(c, Init(start), actions) ::
                OncePerWindow(c, Exec(c, Init(start), actions).value)
  {
    if ForegroundOnly(c.policy) {
      forall start, actions: seq<Action<K, C, V, E, P>> |
        Exec(c, Init(start), actions).Some? && QuietRun(c, Init(start), actions)
        ensures OncePerWindow(c, Exec(c, Init(start), actions).value)
      {
        ExecOnTime(c, start, actions);
      }
    } else {
      var actions: seq<Action<K, C, V, E, P>> := StaleWindowOverlaps(c, k, fn, v);
    }
  }
}
