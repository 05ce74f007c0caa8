/** Calls that run alone, while no flight is registered for their key. The runs are built step by
    step, so that runs with a given effect can be exhibited. */
module EngineSolo {
  import opened Envelope
  import opened Flights
  import opened Engine

  /** `actions` leads from `s0` to `s` by actions that are all `allowed`. */
  ghost predicate Path<K, C, V, E, P>(c: Config, allowed: (World<K, C, V, E, P>, Action<K, C, V, E, P>) -> bool,
                                      s0: World<K, C, V, E, P>, actions: seq<Action<K, C, V, E, P>>,
                                      s: World<K, C, V, E, P>) {
    Exec(c, s0, actions) == Some(s) && Throughout(c, s0, actions, allowed)
  }

  /** Steps without a failure, a computation or a new thread are always allowed. */
  ghost predicate AllowsSteps<K(!new), C(!new), V(!new), E(!new), P(!new)>(
      allowed: (World<K, C, V, E, P>, Action<K, C, V, E, P>) -> bool)
  {
    forall w, t :: allowed(w, Step(t, Go))
  }

  lemma GotoTwice<K, C, V, E, P>(s: World<K, C, V, E, P>, t: Tid, a: PC<K, C, V, E, P>, b: PC<K, C, V, E, P>)
    ensures Goto(Goto(s, t, a), t, b) == Goto(s, t, b)
  {
    assert s.threads[t := a][t := b] == s.threads[t := b];
  }

  lemma LocalIgnoresThreads<K, C, V, E, P>(c: Config, s: World<K, C, V, E, P>, t: Tid, pc: PC<K, C, V, E, P>,
                                           x: Choice<V, E, P>)
    ensures Local(c, Goto(s, t, pc), pc, x) == Local(c, s, pc, x)
  {
  }

  lemma LocalStep<K, C, V, E, P>(c: Config, allowed: (World<K, C, V, E, P>, Action<K, C, V, E, P>) -> bool,
                                 s0: World<K, C, V, E, P>, actions: seq<Action<K, C, V, E, P>>,
                                 s: World<K, C, V, E, P>, t: Tid, pc: PC<K, C, V, E, P>, x: Choice<V, E, P>)
    returns (actions': seq<Action<K, C, V, E, P>>, pc': PC<K, C, V, E, P>)
    requires !s.crashed && Path(c, allowed, s0, actions, Goto(s, t, pc)) && Local(c, s, pc, x).Some?
    requires allowed(Goto(s, t, pc), Step(t, x))
    ensures pc' == Local(c, s, pc, x).value && Path(c, allowed, s0, actions', Goto(s, t, pc'))
    ensures actions <= actions'
  {
    pc' := Local(c, s, pc, x).value;
    actions' := actions + [Step(t, x)];
    LocalIgnoresThreads(c, s, t, pc, x);
    hide Local, Throughout;
    GotoTwice(s, t, pc, pc');
    ThroughoutExtend(c, s0, actions, Goto(s, t, pc), Step(t, x), allowed);
  }

  lemma Wait<K, C, V, E, P>(c: Config, allowed: (World<K, C, V, E, P>, Action<K, C, V, E, P>) -> bool,
                            s0: World<K, C, V, E, P>, actions: seq<Action<K, C, V, E, P>>, s: World<K, C, V, E, P>,
                            now: Time)
    returns (actions': seq<Action<K, C, V, E, P>>)
    requires !s.crashed && Path(c, allowed, s0, actions, s) && allowed(s, Tick(now))
    ensures Path(c, allowed, s0, actions', s.(clock := now))
  {
    ThroughoutExtend(c, s0, actions, s, Tick(now), allowed);
    actions' := actions + [Tick(now)];
  }

  /** Where the reading phase of `GetOrCompute` ends. */
  function Arrived<K(==), C, V, E, P>(c: Config, s: World<K, C, V, E, P>, k: K, fn: C): PC<K, C, V, E, P> {
    if k !in s.store then AtDo(k, fn, None)
    else
      match State(s.store[k], s.clock)
      case Fresh => Done(k, Ok(s.store[k].value), Hit)
      case Stale => AtRefresh(k, fn, s.store[k].value)
      case Expired => AtDo(k, fn, if c.keepStale then Some(s.store[k].value) else None)
  }

  /** The next step of the reading phase, while no flight is registered for the key. */
  lemma ReadStep<K(!new), C(!new), V(!new), E(!new), P(!new)>(
      c: Config, allowed: (World<K, C, V, E, P>, Action<K, C, V, E, P>) -> bool, s0: World<K, C, V, E, P>,
      actions: seq<Action<K, C, V, E, P>>, s: World<K, C, V, E, P>, t: Tid, pc: PC<K, C, V, E, P>)
    returns (actions': seq<Action<K, C, V, E, P>>, pc': PC<K, C, V, E, P>)
    requires !s.crashed && (pc.AtFresh? || pc.AtLookup? || pc.AtEntry?) && pc.now == s.clock
    requires pc.key !in s.table.registered
    requires Path(c, allowed, s0, actions, Goto(s, t, pc)) && AllowsSteps(allowed)
    ensures Path(c, allowed, s0, actions', Goto(s, t, pc')) && actions <= actions'
    ensures pc'.AtFresh? || pc'.AtLookup? || pc'.AtEntry? ==>
              pc'.now == s.clock && pc'.key == pc.key && pc'.fn == pc.fn && ReadRank(pc') < ReadRank(pc)
    ensures !(pc'.AtFresh? || pc'.AtLookup? || pc'.AtEntry?) ==> pc' == Arrived(c, s, pc.key, pc.fn)
  {
    AllowsGo(allowed, Goto(s, t, pc), t);
    ReadLocal(c, s, pc);
    hide Path, AllowsSteps, Local, Arrived;
    actions', pc' := LocalStep(c, allowed, s0, actions, s, t, pc, Go);
  }

  lemma ReadLocal<K, C, V, E, P>(c: Config, s: World<K, C, V, E, P>, pc: PC<K, C, V, E, P>)
    requires (pc.AtFresh? || pc.AtLookup? || pc.AtEntry?) && pc.now == s.clock && pc.key !in s.table.registered
    ensures Local(c, s, pc, Go).Some?
    ensures var pc' := Local(c, s, pc, Go).value;
            if pc'.AtFresh? || pc'.AtLookup? || pc'.AtEntry? then
              pc'.now == s.clock && pc'.key == pc.key && pc'.fn == pc.fn && ReadRank(pc') < ReadRank(pc)
            else pc' == Arrived(c, s, pc.key, pc.fn)
  {
  }

  function ReadRank<K, C, V, E, P>(pc: PC<K, C, V, E, P>): nat {
    if pc.AtFresh? then 3 else if pc.AtLookup? then 2 else 1
  }

  lemma {:induction false} ReadOn<K(!new), C(!new), V(!new), E(!new), P(!new)>(
      c: Config, allowed: (World<K, C, V, E, P>, Action<K, C, V, E, P>) -> bool, s0: World<K, C, V, E, P>,
      actions: seq<Action<K, C, V, E, P>>, s: World<K, C, V, E, P>, t: Tid, pc: PC<K, C, V, E, P>)
    returns (actions': seq<Action<K, C, V, E, P>>)
    requires !s.crashed && (pc.AtFresh? || pc.AtLookup? || pc.AtEntry?) && pc.now == s.clock
    requires pc.key !in s.table.registered
    requires Path(c, allowed, s0, actions, Goto(s, t, pc)) && AllowsSteps(allowed)
    ensures Path(c, allowed, s0, actions', Goto(s, t, Arrived(c, s, pc.key, pc.fn))) && actions <= actions'
    decreases ReadRank(pc)
  {
    hide Path, AllowsSteps, Arrived;
    var pc': PC<K, C, V, E, P>;
    actions', pc' := ReadStep(c, allowed, s0, actions, s, t, pc);
    if pc'.AtFresh? || pc'.AtLookup? || pc'.AtEntry? {
      actions' := ReadOn(c, allowed, s0, actions', s, t, pc');
    }
  }

  /** A new call that reads while no flight is registered for its key. */
  lemma Arrive<K(!new), C(!new), V(!new), E(!new), P(!new)>(
      c: Config, allowed: (World<K, C, V, E, P>, Action<K, C, V, E, P>) -> bool, s0: World<K, C, V, E, P>,
      actions: seq<Action<K, C, V, E, P>>, s: World<K, C, V, E, P>, t: Tid, k: K, fn: C)
    returns (actions': seq<Action<K, C, V, E, P>>)
    requires !s.crashed && !c.bypass && t !in s.threads && k !in s.table.registered
    requires Path(c, allowed, s0, actions, s) && AllowsSteps(allowed) && allowed(s, Call(t, k, fn))
    ensures Path(c, allowed, s0, actions', Goto(s, t, Arrived(c, s, k, fn)))
    ensures actions + [Call(t, k, fn)] <= actions'
  {
    ThroughoutExtend(c, s0, actions, s, Call(t, k, fn), allowed);
    actions' := actions + [Call(t, k, fn)];
    assert Path(c, allowed, s0, actions', Goto(s, t, AtClock(k, fn)));
    AllowsGo(allowed, Goto(s, t, AtClock(k, fn)), t);
    hide Path, AllowsSteps, Arrived;
    var pc: PC<K, C, V, E, P>;
    actions', pc := LocalStep(c, allowed, s0, actions', s, t, AtClock(k, fn), Go);
    actions' := ReadOn(c, allowed, s0, actions', s, t, pc);
  }

  /** The leader's recheck, when nothing fresh is stored. */
  lemma Recheck<K(!new), C(!new), V(!new), E(!new), P(!new)>(
      c: Config, allowed: (World<K, C, V, E, P>, Action<K, C, V, E, P>) -> bool, s0: World<K, C, V, E, P>,
      actions: seq<Action<K, C, V, E, P>>, s: World<K, C, V, E, P>, t: Tid, pc: PC<K, C, V, E, P>)
    returns (actions': seq<Action<K, C, V, E, P>>)
    requires !s.crashed && pc.Leading? && pc.stage == RecheckClock && !FreshAt(s.store, pc.key, s.clock)
    requires Path(c, allowed, s0, actions, Goto(s, t, pc)) && AllowsSteps(allowed)
    ensures Path(c, allowed, s0, actions', Goto(s, t, pc.(stage := Begin)))
    ensures actions <= actions'
  {
    hide Throughout;
    var pc': PC<K, C, V, E, P>;
    actions', pc' := LocalStep(c, allowed, s0, actions, s, t, pc, Go);
    if pc'.stage.RecheckFresh? {
      actions', pc' := LocalStep(c, allowed, s0, actions', s, t, pc', Go);
    }
    actions', pc' := LocalStep(c, allowed, s0, actions', s, t, pc', Go);
  }

  /** A computation that succeeds, up to the point where its value is to be written. */
  lemma Compute<K(!new), C(!new), V(!new), E(!new), P(!new)>(
      c: Config, allowed: (World<K, C, V, E, P>, Action<K, C, V, E, P>) -> bool, s0: World<K, C, V, E, P>,
      actions: seq<Action<K, C, V, E, P>>, s: World<K, C, V, E, P>, t: Tid, pc: PC<K, C, V, E, P>, v: V)
    returns (actions': seq<Action<K, C, V, E, P>>)
    requires !s.crashed && pc.Leading? && pc.stage == Begin
    requires Path(c, allowed, s0, actions, Goto(s, t, pc)) && AllowsSteps(allowed)
    requires allowed(Goto(s, t, pc.(stage := Computing(s.clock))), Step(t, Yields(Ok(v))))
    ensures Path(c, allowed, s0, actions', Goto(s, t, pc.(stage := SetWrite(s.clock, v, s.clock))))
    ensures actions <= actions'
  {
    hide Throughout;
    var pc': PC<K, C, V, E, P>;
    actions', pc' := LocalStep(c, allowed, s0, actions, s, t, pc, Go);
    actions', pc' := LocalStep(c, allowed, s0, actions', s, t, pc', Yields(Ok(v)));
    actions', pc' := LocalStep(c, allowed, s0, actions', s, t, pc', Go);
  }

  /** A step of the leader that writes shared state. */
  lemma SharedStep<K, C, V, E, P>(c: Config, allowed: (World<K, C, V, E, P>, Action<K, C, V, E, P>) -> bool,
                                  s0: World<K, C, V, E, P>, actions: seq<Action<K, C, V, E, P>>,
                                  s: World<K, C, V, E, P>, t: Tid, x: Choice<V, E, P>, s': World<K, C, V, E, P>)
    returns (actions': seq<Action<K, C, V, E, P>>)
    requires !s.crashed && Path(c, allowed, s0, actions, s) && t in s.threads
    requires Local(c, s, s.threads[t], x).None? && Shared(c, s, t, s.threads[t], x) == Some(s')
    requires allowed(s, Step(t, x))
    ensures Path(c, allowed, s0, actions', s') && actions <= actions'
  {
    hide Local, Shared, Throughout;
    ThroughoutExtend(c, s0, actions, s, Step(t, x), allowed);
    actions' := actions + [Step(t, x)];
  }

  /** The table after flight `f` for key `k` has ended with `o`. */
  function Ended<K, V, E, P>(table: Table<K, V, E, P>, f: nat, k: K, o: Outcome<V, E, P>): Table<K, V, E, P>
    requires f < |table.flights|
  {
    Release(Unregister(Publish(table, f, o), k), f)
  }

  /** Giving up the key, releasing the waiters and returning. */
  lemma GiveUp<K(!new), C(!new), V(!new), E(!new), P(!new)>(
      c: Config, allowed: (World<K, C, V, E, P>, Action<K, C, V, E, P>) -> bool, s0: World<K, C, V, E, P>,
      actions: seq<Action<K, C, V, E, P>>, s: World<K, C, V, E, P>, t: Tid, pc: PC<K, C, V, E, P>,
      o: Outcome<V, E, P>)
    returns (actions': seq<Action<K, C, V, E, P>>)
    requires !s.crashed && pc.Leading? && pc.stage == Unregistering(o) && pc.flight < |s.table.flights|
    requires Path(c, allowed, s0, actions, Goto(s, t, pc)) && AllowsSteps(allowed)
    ensures var done := Done(pc.key, Settle(o, pc.fallback), Led(pc.flight, pc.fallback));
            Path(c, allowed, s0, actions',
                 Goto(s, t, done).(table := Release(Unregister(s.table, pc.key), pc.flight)))
    ensures actions <= actions'
  {
    hide Throughout, Path, AllowsSteps;
    var p3 := pc.(stage := Releasing(o));
    var p4 := Done(pc.key, Settle(o, pc.fallback), Led(pc.flight, pc.fallback));
    var s3 := s.(table := Unregister(s.table, pc.key));
    AllowsGo(allowed, Goto(s, t, pc), t);
    GotoTwice(s, t, pc, p3);
    actions' := SharedStep(c, allowed, s0, actions, Goto(s, t, pc), t, Go, Goto(s3, t, p3));
    AllowsGo(allowed, Goto(s3, t, p3), t);
    GotoTwice(s3, t, p3, p4);
    actions' := SharedStep(c, allowed, s0, actions', Goto(s3, t, p3), t, Go,
                           Goto(s, t, p4).(table := Release(s3.table, pc.flight)));
  }

  /** Publishing the outcome, and all that follows. */
  lemma EndFlight<K(!new), C(!new), V(!new), E(!new), P(!new)>(
      c: Config, allowed: (World<K, C, V, E, P>, Action<K, C, V, E, P>) -> bool, s0: World<K, C, V, E, P>,
      actions: seq<Action<K, C, V, E, P>>, s: World<K, C, V, E, P>, t: Tid, pc: PC<K, C, V, E, P>,
      o: Outcome<V, E, P>)
    returns (actions': seq<Action<K, C, V, E, P>>)
    requires !s.crashed && pc.Leading? && pc.stage == Publishing(o) && pc.flight < |s.table.flights|
    requires Path(c, allowed, s0, actions, Goto(s, t, pc)) && AllowsSteps(allowed)
    ensures var done := Done(pc.key, Settle(o, pc.fallback), Led(pc.flight, pc.fallback));
            Path(c, allowed, s0, actions', Goto(s, t, done).(table := Ended(s.table, pc.flight, pc.key, o)))
    ensures actions <= actions'
  {
    hide Throughout, Path, AllowsSteps;
    var p2 := pc.(stage := Unregistering(o));
    var s2 := s.(table := Publish(s.table, pc.flight, o));
    AllowsGo(allowed, Goto(s, t, pc), t);
    GotoTwice(s, t, pc, p2);
    actions' := SharedStep(c, allowed, s0, actions, Goto(s, t, pc), t, Go, Goto(s2, t, p2));
    actions' := GiveUp(c, allowed, s0, actions', s2, t, p2, o);
  }

  /** `s` after thread `t` has computed and stored `v` for the key of flight `f`, at the current time. */
  function Computed<K, C, V, E, P>(c: Config, s: World<K, C, V, E, P>, f: nat, k: K, v: V): World<K, C, V, E, P>
    requires f < |s.table.flights|
  {
    s.(store := s.store[k := Seal(c.policy, v, s.clock)],
       windows := s.windows + [Window(k, s.clock, s.clock + c.policy.ttl)],
       table := Ended(s.table, f, k, Ok(v)))
  }

  /** From the beginning of a computation to the return of its leader. */
  lemma ComputeAndReturn<K(!new), C(!new), V(!new), E(!new), P(!new)>(
      c: Config, allowed: (World<K, C, V, E, P>, Action<K, C, V, E, P>) -> bool, s0: World<K, C, V, E, P>,
      actions: seq<Action<K, C, V, E, P>>, s: World<K, C, V, E, P>, t: Tid, pc: PC<K, C, V, E, P>, v: V)
    returns (actions': seq<Action<K, C, V, E, P>>)
    requires !s.crashed && pc.Leading? && pc.stage == Begin && pc.flight < |s.table.flights|
    requires Path(c, allowed, s0, actions, Goto(s, t, pc)) && AllowsSteps(allowed)
    requires allowed(Goto(s, t, pc.(stage := Computing(s.clock))), Step(t, Yields(Ok(v))))
    ensures Path(c, allowed, s0, actions',
                  Goto(Computed(c, s, pc.flight, pc.key, v), t, Done(pc.key, Ok(v), Led(pc.flight, pc.fallback))))
    ensures actions <= actions'
  {
    hide Throughout, Path, AllowsSteps;
    actions' := Compute(c, allowed, s0, actions, s, t, pc, v);
    var p0 := pc.(stage := SetWrite(s.clock, v, s.clock));
    var p1 := pc.(stage := Publishing(Ok(v)));
    var s1 := s.(store := s.store[pc.key := Seal(c.policy, v, s.clock)],
                 windows := s.windows + [Window(pc.key, s.clock, s.clock + c.policy.ttl)]);
    GotoTwice(s, t, p0, p1);
    AllowsGo(allowed, Goto(s, t, p0), t);
    actions' := SharedStep(c, allowed, s0, actions', Goto(s, t, p0), t, Go, Goto(s1, t, p1));
    actions' := EndFlight(c, allowed, s0, actions', s1, t, p1, Ok(v));
  }

  lemma AllowsGo<K(!new), C(!new), V(!new), E(!new), P(!new)>(
      allowed: (World<K, C, V, E, P>, Action<K, C, V, E, P>) -> bool, w: World<K, C, V, E, P>, t: Tid)
    requires AllowsSteps(allowed)
    ensures allowed(w, Step(t, Go))
  {
  }

  /** A call that finds nothing and computes `v`, with nobody else around. */
  lemma SoloMiss<K(!new), C(!new), V(!new), E(!new), P(!new)>(
      c: Config, allowed: (World<K, C, V, E, P>, Action<K, C, V, E, P>) -> bool, s0: World<K, C, V, E, P>,
      actions: seq<Action<K, C, V, E, P>>, s: World<K, C, V, E, P>, t: Tid, k: K, fn: C, v: V)
    returns (actions': seq<Action<K, C, V, E, P>>)
    requires !s.crashed && !c.bypass && t !in s.threads && k !in s.table.registered && k !in s.store
    requires Path(c, allowed, s0, actions, s) && AllowsSteps(allowed) && allowed(s, Call(t, k, fn))
    requires forall w: World<K, C, V, E, P> ::
               t in w.threads && w.threads[t].Leading? && w.threads[t].key == k && w.threads[t].fn == fn ==>
                 allowed(w, Step(t, Yields(Ok(v))))
    ensures var f := |s.table.flights|;
            Path(c, allowed, s0, actions',
                  Goto(Computed(c, s.(table := Start(s.table, k, t)), f, k, v), t, Done(k, Ok(v), Led(f, None))))
    ensures actions + [Call(t, k, fn)] <= actions'
  {
    hide Throughout, Path, AllowsSteps;
    actions' := Arrive(c, allowed, s0, actions, s, t, k, fn);
    var f := |s.table.flights|;
    var s1 := s.(table := Start(s.table, k, t));
    var p0, p1 := AtDo(k, fn, None), Leading(k, fn, f, None, false, RecheckClock);
    AllowsGo(allowed, Goto(s, t, p0), t);
    GotoTwice(s, t, p0, p1);
    actions' := SharedStep(c, allowed, s0, actions', Goto(s, t, p0), t, Go, Goto(s1, t, p1));
    actions' := Recheck(c, allowed, s0, actions', s1, t, p1);
    actions' := ComputeAndReturn(c, allowed, s0, actions', s1, t, p1.(stage := Begin), v);
  }

  /** A thread that has read a stale entry starts a refresh `u`, which computes `v`. */
  lemma SoloRefresh<K(!new), C(!new), V(!new), E(!new), P(!new)>(
      c: Config, allowed: (World<K, C, V, E, P>, Action<K, C, V, E, P>) -> bool, s0: World<K, C, V, E, P>,
      actions: seq<Action<K, C, V, E, P>>, s: World<K, C, V, E, P>, t: Tid, u: Tid, k: K, fn: C, old_: V, v: V)
    returns (actions': seq<Action<K, C, V, E, P>>)
    requires !s.crashed && u !in s.threads && u != t && k !in s.table.registered
    requires Path(c, allowed, s0, actions, Goto(s, t, AtRefresh(k, fn, old_))) && AllowsSteps(allowed)
    requires allowed(Goto(s, t, AtRefresh(k, fn, old_)), Step(t, Spawns(u)))
    requires forall w: World<K, C, V, E, P> ::
               u in w.threads && w.threads[u].Leading? && w.threads[u].key == k && w.threads[u].fn == fn ==>
                 allowed(w, Step(u, Yields(Ok(v))))
    ensures var f := |s.table.flights|;
            Path(c, allowed, s0, actions',
                  Goto(Computed(c, Goto(s, t, Done(k, Ok(old_), StaleHit)).(table := Start(s.table, k, u)), f, k, v),
                       u, Done(k, Ok(v), Led(f, None))))
    ensures actions <= actions'
  {
    hide Throughout, Path, AllowsSteps;
    var f := |s.table.flights|;
    var p0, p1 := AtRefresh(k, fn, old_), Done(k, Ok(old_), StaleHit);
    var s1 := Goto(s, t, p1).(table := Start(s.table, k, u));
    var lead := Leading(k, fn, f, None, true, Begin);
    GotoTwice(s, t, p0, p1);
    actions' := SharedStep(c, allowed, s0, actions, Goto(s, t, p0), t, Spawns(u), Goto(s1, u, lead));
    actions' := ComputeAndReturn(c, allowed, s0, actions', s1, u, lead, v);
  }
}
