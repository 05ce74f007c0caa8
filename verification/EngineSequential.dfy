/** How a call that has the cache to itself can run to its end, whatever the computation does. */
module EngineSequential {
  import opened Envelope
  import opened Flights
  import opened Engine
  import opened EngineSolo
  import Alone = EngineAlone
  import CacheSpec

  /** What may happen while the call by t, whose refresh is u, has its key to itself. */
  ghost function Own<K, C, V, E, P>(t: Tid, u: Tid, k: K, fn: C, o: Outcome<V, E, P>)
    : (World<K, C, V, E, P>, Action<K, C, V, E, P>) -> bool {
    (w, a) => Alone.AloneAction(t, u, k, fn, o, a)
  }

  lemma OwnAllows<K(!new), C(!new), V(!new), E(!new), P(!new)>(t: Tid, u: Tid, k: K, fn: C, o: Outcome<V, E, P>)
    ensures var allowed := Own(t, u, k, fn, o);
            && AllowsSteps(allowed) && AllowsEnd(allowed, t, o) && AllowsEnd(allowed, u, o)
            && (forall w :: allowed(w, Step(t, Spawns(u)))) && forall w :: allowed(w, Call(t, k, fn))
  {
  }

  lemma {:induction false} ExecPrefix<K, C, V, E, P>(c: Config, s: World<K, C, V, E, P>,
                                                     actions: seq<Action<K, C, V, E, P>>, i: nat)
    requires Exec(c, s, actions).Some? && i <= |actions|
    ensures Exec(c, s, actions[..i]).Some?
  {
    var n := |actions| - 1;
    if i <= n {
      ExecPrefix(c, s, actions[..n], i);
      assert actions[..n][..i] == actions[..i];
    } else {
      assert actions[..i] == actions;
    }
  }

  lemma OwnPath<K, C, V, E, P>(c: Config, s: World<K, C, V, E, P>, t: Tid, u: Tid, k: K, fn: C, o: Outcome<V, E, P>,
                               actions: seq<Action<K, C, V, E, P>>, s': World<K, C, V, E, P>)
    requires Path(c, Own(t, u, k, fn, o), s, actions, s')
    ensures Alone.AloneRun(t, u, k, fn, o, actions) && Exec(c, s, actions) == Some(s')
  {
    forall i | 0 <= i < |actions| ensures Alone.AloneAction(t, u, k, fn, o, actions[i]) {
      ExecPrefix(c, s, actions, i);
    }
  }

  ghost predicate AllowsEnd<K(!new), C(!new), V(!new), E(!new), P(!new)>(
      allowed: (World<K, C, V, E, P>, Action<K, C, V, E, P>) -> bool, t: Tid, o: Outcome<V, E, P>)
  {
    forall w :: allowed(w, Step(t, Yields(o)))
  }

  /** A leader at the beginning of a computation that fails with `o`, to its return. */
  lemma FailAndReturn<K(!new), C(!new), V(!new), E(!new), P(!new)>(
      c: Config, allowed: (World<K, C, V, E, P>, Action<K, C, V, E, P>) -> bool, s0: World<K, C, V, E, P>,
      actions: seq<Action<K, C, V, E, P>>, s: World<K, C, V, E, P>, t: Tid, pc: PC<K, C, V, E, P>,
      o: Outcome<V, E, P>)
    returns (actions': seq<Action<K, C, V, E, P>>)
    requires !s.crashed && pc.Leading? && pc.stage == Begin && pc.flight < |s.table.flights|
    requires !o.Ok? && (o.Panic? ==> !pc.background) && AllowsSteps(allowed) && AllowsEnd(allowed, t, o)
    requires Path(c, allowed, s0, actions, Goto(s, t, pc))
    ensures Path(c, allowed, s0, actions',
                 Goto(s, t, Done(pc.key, Settle(o, pc.fallback), Led(pc.flight, pc.fallback)))
                 .(table := Ended(s.table, pc.flight, pc.key, o)))
  {
    hide Throughout, Path, AllowsSteps;
    AllowsGo(allowed, Goto(s, t, pc), t);
    var pc': PC<K, C, V, E, P>;
    actions', pc' := LocalStep(c, allowed, s0, actions, s, t, pc, Go);
    actions', pc' := LocalStep(c, allowed, s0, actions', s, t, pc', Yields(o));
    actions' := EndFlight(c, allowed, s0, actions', s, t, pc', o);
  }

  /** A call that has found nothing to serve: it leads a flight, looks again, and computes. */
  lemma LeadAlone<K(!new), C(!new), V(!new), E(!new), P(!new)>(
      c: Config, allowed: (World<K, C, V, E, P>, Action<K, C, V, E, P>) -> bool, s0: World<K, C, V, E, P>,
      actions: seq<Action<K, C, V, E, P>>, s: World<K, C, V, E, P>, t: Tid, k: K, fn: C, fallback: Option<V>,
      o: Outcome<V, E, P>)
    returns (actions': seq<Action<K, C, V, E, P>>, s': World<K, C, V, E, P>)
    requires !s.crashed && k !in s.table.registered && !FreshAt(s.store, k, s.clock)
    requires AllowsSteps(allowed) && AllowsEnd(allowed, t, o)
    requires Path(c, allowed, s0, actions, Goto(s, t, AtDo(k, fn, fallback)))
    ensures Path(c, allowed, s0, actions', s')
    ensures t in s'.threads && s'.threads[t] == Done(k, Settle(o, fallback), Led(|s.table.flights|, fallback))
    ensures s'.store == (if o.Ok? then s.store[k := Seal(c.policy, o.value, s.clock)] else s.store)
    ensures !s'.crashed && k !in s'.table.registered
  {
    hide Throughout, Path, AllowsSteps;
    var f := |s.table.flights|;
    var s1 := s.(table := Start(s.table, k, t));
    var p0, p1 := AtDo(k, fn, fallback), Leading(k, fn, f, fallback, false, RecheckClock);
    AllowsGo(allowed, Goto(s, t, p0), t);
    GotoTwice(s, t, p0, p1);
    actions' := SharedStep(c, allowed, s0, actions, Goto(s, t, p0), t, Go, Goto(s1, t, p1));
    actions' := Recheck(c, allowed, s0, actions', s1, t, p1);
    var p2 := p1.(stage := Begin);
    if o.Ok? {
      actions' := ComputeAndReturn(c, allowed, s0, actions', s1, t, p2, o.value);
      s' := Goto(Computed(c, s1, f, k, o.value), t, Done(k, o, Led(f, fallback)));
    } else {
      actions' := FailAndReturn(c, allowed, s0, actions', s1, t, p2, o);
      s' := Goto(s1, t, Done(k, Settle(o, fallback), Led(f, fallback))).(table := Ended(s1.table, f, k, o));
    }
  }

  /** A call that has read a stale entry: it starts a refresh u, which runs to its end, unless it
      panics and takes the process with it. */
  lemma RefreshAlone<K(!new), C(!new), V(!new), E(!new), P(!new)>(
      c: Config, allowed: (World<K, C, V, E, P>, Action<K, C, V, E, P>) -> bool, s0: World<K, C, V, E, P>,
      actions: seq<Action<K, C, V, E, P>>, s: World<K, C, V, E, P>, t: Tid, u: Tid, k: K, fn: C, served: V,
      o: Outcome<V, E, P>)
    returns (actions': seq<Action<K, C, V, E, P>>, s': World<K, C, V, E, P>)
    requires !s.crashed && u !in s.threads && u != t && k !in s.table.registered
    requires AllowsSteps(allowed) && AllowsEnd(allowed, u, o) && forall w :: allowed(w, Step(t, Spawns(u)))
    requires Path(c, allowed, s0, actions, Goto(s, t, AtRefresh(k, fn, served)))
    ensures Path(c, allowed, s0, actions', s')
    ensures t in s'.threads && s'.threads[t] == Done(k, Ok(served), StaleHit)
    ensures s'.store == (if o.Ok? then s.store[k := Seal(c.policy, o.value, s.clock)] else s.store)
    ensures s'.crashed == o.Panic? && (!s'.crashed ==> k !in s'.table.registered)
  {
    hide Throughout, Path, AllowsSteps;
    var f := |s.table.flights|;
    var p0, p1 := AtRefresh(k, fn, served), Done(k, Ok(served), StaleHit);
    if o.Ok? {
      actions' := SoloRefresh(c, allowed, s0, actions, s, t, u, k, fn, served, o.value);
      var spawned := Goto(s, t, p1).(table := Start(s.table, k, u));
      s' := Goto(Computed(c, spawned, f, k, o.value), u, Done(k, o, Led(f, None)));
    } else {
      var s1 := Goto(s, t, p1).(table := Start(s.table, k, u));
      var lead := Leading(k, fn, f, None, true, Begin);
      GotoTwice(s, t, p0, p1);
      actions' := SharedStep(c, allowed, s0, actions, Goto(s, t, p0), t, Spawns(u), Goto(s1, u, lead));
      if o.Err? {
        actions' := FailAndReturn(c, allowed, s0, actions', s1, u, lead, o);
        s' := Goto(s1, u, Done(k, o, Led(f, None))).(table := Ended(s1.table, f, k, o));
      } else {
        AllowsGo(allowed, Goto(s1, u, lead), u);
        var pc: PC<K, C, V, E, P>;
        actions', pc := LocalStep(c, allowed, s0, actions', s1, u, lead, Go);
        s' := Goto(s1, u, pc).(crashed := true);
        actions' := SharedStep(c, allowed, s0, actions', Goto(s1, u, pc), u, Yields(o), s');
      }
    }
  }

  /** From any state in which no flight is in progress for the key, a call has a run of its own, of the
      kind that `EngineAlone` speaks of, that ends with the result and the store of `CacheSpec`,
      however the compute function ends. */
  lemma AloneReturns<K(!new), C(!new), V(!new), E(!new), P(!new)>(
      c: Config, s: World<K, C, V, E, P>, t: Tid, u: Tid, k: K, fn: C, o: Outcome<V, E, P>)
    returns (actions: seq<Action<K, C, V, E, P>>)
    requires !s.crashed && t !in s.threads && u !in s.threads && t != u && k !in s.table.registered
    ensures Alone.AloneRun(t, u, k, fn, o, actions) && Exec(c, s, actions).Some?
    ensures var s' := Exec(c, s, actions).value;
            var (m, r) := CacheSpec.PlainCall(c, s.store, k, CacheSpec.Env(s.clock, s.clock, s.clock, o));
            && t in s'.threads && s'.threads[t].Done? && s'.threads[t].key == k && s'.threads[t].result == r
            && s'.store == m
            && (!s'.crashed ==> k !in s'.table.registered)
            && (s'.crashed <==> !c.bypass && k in s.store && State(s.store[k], s.clock) == Stale && o.Panic?)
  {
    if c.bypass {
      var called := [Call(t, k, fn)];
      actions := called + [Step(t, Yields(o))];
      assert actions[..1] == called && called[..0] == [];
      assert Exec(c, s, called) == Some(Goto(s, t, AtBypass(k, fn)));
      assert Exec(c, s, actions) == Apply(c, Goto(s, t, AtBypass(k, fn)), Step(t, Yields(o)));
    } else {
      var allowed := Own(t, u, k, fn, o);
      OwnAllows(t, u, k, fn, o);
      assert Path(c, allowed, s, [], s);
      hide AllowsSteps, AllowsEnd, Throughout, Exec;
      actions := Arrive(c, allowed, s, [], s, t, k, fn);
      var s' := Goto(s, t, Arrived(c, s, k, fn));
      match Arrived(c, s, k, fn) {
        case AtDo(_, _, fallback) =>
          actions, s' := LeadAlone(c, allowed, s, actions, s, t, k, fn, fallback, o);
        case AtRefresh(_, _, served) =>
          actions, s' := RefreshAlone(c, allowed, s, actions, s, t, u, k, fn, served, o);
        case _ =>
      }
      OwnPath(c, s, t, u, k, fn, o, actions, s');
    }
  }
}
