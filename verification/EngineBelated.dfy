/** The runs on which a call is served a value that is older than a deletion: those that `EngineRenewal`
    rules out when nothing is outstanding, and one of them whenever something is. */
module EngineBelated {
  import opened Envelope
  import opened Flights
  import opened Engine
  import opened EngineSafety
  import opened EngineSolo
  import opened EngineRenewal
  import Progress = EngineProgress

  /** An action that makes nothing: no Set, and no computation but those underway in `s0`. */
  predicate IdleAction<K, C, V, E, P>(s0: World<K, C, V, E, P>, a: Action<K, C, V, E, P>) {
    !a.CallSet? && (a.Step? && a.choice.Yields? ==> Underway(s0, a.t))
  }

  ghost function Idle<K, C, V, E, P>(s0: World<K, C, V, E, P>)
    : (World<K, C, V, E, P>, Action<K, C, V, E, P>) -> bool {
    (w, a) => IdleAction(s0, a)
  }

  ghost predicate AllowsOthers<K(!new), C(!new), V(!new), E(!new), P(!new)>(
      allowed: (World<K, C, V, E, P>, Action<K, C, V, E, P>) -> bool)
  {
    forall w, a: Action<K, C, V, E, P> :: !a.Step? && !a.CallSet? ==> allowed(w, a)
  }

  lemma IdleAllows<K(!new), C(!new), V(!new), E(!new), P(!new)>(s0: World<K, C, V, E, P>)
    ensures AllowsSteps(Idle(s0)) && AllowsOthers(Idle(s0))
  {
  }

  lemma {:induction false} IdleMakesNothing<K, C, V, E, P>(
      c: Config, s0: World<K, C, V, E, P>, actions: seq<Action<K, C, V, E, P>>, k: K)
    requires Throughout(c, s0, actions, Idle(s0)) && Exec(c, s0, actions).Some?
    ensures Made(c, s0, actions, k) == {}
  {
    if actions != [] {
      ThroughoutPrefix(c, s0, actions, Idle(s0));
      IdleMakesNothing(c, s0, actions[..|actions| - 1], k);
    }
  }

  lemma GetLocal<K, C, V, E, P>(c: Config, s: World<K, C, V, E, P>, k: K)
    requires FreshAt(s.store, k, s.clock)
    ensures var first := Local(c, s, GetClock(k), Go);
            first.Some? && Local(c, s, first.value, Go) == Some(GetDone(k, Some(s.store[k].value), None))
  {
  }

  /** A new `Get` finds a fresh entry. */
  lemma GetServes<K(!new), C(!new), V(!new), E(!new), P(!new)>(
      c: Config, allowed: (World<K, C, V, E, P>, Action<K, C, V, E, P>) -> bool, s0: World<K, C, V, E, P>,
      actions: seq<Action<K, C, V, E, P>>, s: World<K, C, V, E, P>, u: Tid, k: K)
    returns (actions': seq<Action<K, C, V, E, P>>)
    requires Path(c, allowed, s0, actions, s) && !s.crashed && !c.bypass && u !in s.threads
    requires AllowsSteps(allowed) && allowed(s, CallGet(u, k)) && FreshAt(s.store, k, s.clock)
    ensures Path(c, allowed, s0, actions', Goto(s, u, GetDone(k, Some(s.store[k].value), None)))
  {
    ThroughoutExtend(c, s0, actions, s, CallGet(u, k), allowed);
    actions' := actions + [CallGet(u, k)];
    assert Path(c, allowed, s0, actions', Goto(s, u, GetClock(k)));
    GetLocal(c, s, k);
    hide Path, Throughout, Exec, Local, FreshAt;
    var pc: PC<K, C, V, E, P>;
    actions', pc := LocalStep(c, allowed, s0, actions', s, u, GetClock(k), Go);
    actions', pc := LocalStep(c, allowed, s0, actions', s, u, pc, Go);
  }

  lemma JoinLocal<K, C, V, E, P>(c: Config, s: World<K, C, V, E, P>, k: K, fn: C)
    requires k in s.table.registered && k !in s.store
    ensures var now := s.clock; var joined := Some(Waiting(k, s.table.registered[k], None));
            && Local(c, s, AtClock(k, fn), Go)
               == Some(if c.supportsFresh then AtFresh(k, fn, now) else AtEntry(k, fn, now))
            && Local(c, s, AtFresh(k, fn, now), Go)
               == Some(if WaitsFirst(c) then AtLookup(k, fn, now) else AtEntry(k, fn, now))
            && Local(c, s, AtLookup(k, fn, now), Go) == joined
            && Local(c, s, AtEntry(k, fn, now), Go) == Some(AtDo(k, fn, None))
            && Local(c, s, AtDo(k, fn, None), Go) == joined
  {
  }

  /** A new call joins the flight that is registered for its key, when nothing is stored. */
  lemma JoinFlight<K(!new), C(!new), V(!new), E(!new), P(!new)>(
      c: Config, allowed: (World<K, C, V, E, P>, Action<K, C, V, E, P>) -> bool, s0: World<K, C, V, E, P>,
      actions: seq<Action<K, C, V, E, P>>, s: World<K, C, V, E, P>, u: Tid, k: K, fn: C)
    returns (actions': seq<Action<K, C, V, E, P>>)
    requires Path(c, allowed, s0, actions, s) && !s.crashed && !c.bypass && u !in s.threads
    requires AllowsSteps(allowed) && allowed(s, Call(u, k, fn)) && k in s.table.registered && k !in s.store
    ensures Path(c, allowed, s0, actions', Goto(s, u, Waiting(k, s.table.registered[k], None)))
  {
    ThroughoutExtend(c, s0, actions, s, Call(u, k, fn), allowed);
    actions' := actions + [Call(u, k, fn)];
    assert Path(c, allowed, s0, actions', Goto(s, u, AtClock(k, fn)));
    JoinLocal(c, s, k, fn);
    hide Path, Throughout, Exec, Local, WaitsFirst;
    var pc: PC<K, C, V, E, P>;
    actions', pc := LocalStep(c, allowed, s0, actions', s, u, AtClock(k, fn), Go);
    if pc.AtFresh? {
      actions', pc := LocalStep(c, allowed, s0, actions', s, u, pc, Go);
    }
    actions', pc := LocalStep(c, allowed, s0, actions', s, u, pc, Go);
    if pc.AtDo? {
      actions', pc := LocalStep(c, allowed, s0, actions', s, u, pc, Go);
    }
  }

  /** A value that is about to be written is served once it is, at the time its envelope says. */
  lemma WriteServes<K(!new), C(!new), V(!new), E(!new), P(!new)>(
      c: Config, allowed: (World<K, C, V, E, P>, Action<K, C, V, E, P>) -> bool, s0: World<K, C, V, E, P>,
      actions: seq<Action<K, C, V, E, P>>, s: World<K, C, V, E, P>, t: Tid, pc: PC<K, C, V, E, P>, u: Tid, v: V,
      now: Time)
    returns (actions': seq<Action<K, C, V, E, P>>, s': World<K, C, V, E, P>)
    requires Path(c, allowed, s0, actions, Goto(s, t, pc)) && !s.crashed && !c.bypass && ValidPolicy(c.policy)
    requires u !in s.threads && u != t && AllowsSteps(allowed) && AllowsOthers(allowed)
    requires || pc == PutWrite(pc.key, v, now)
             || (pc.Leading? && pc.flight < |s.table.flights|
                 && pc.stage.SetWrite? && pc.stage.value == v && pc.stage.now == now)
    ensures Path(c, allowed, s0, actions', s') && u in s'.threads && s'.threads[u] == GetDone(pc.key, Some(v), None)
  {
    actions' := Wait(c, allowed, s0, actions, Goto(s, t, pc), now);
    var w := Goto(s, t, pc).(clock := now);
    hide Path;
    s' := Shared(c, w, t, pc, Go).value;
    actions' := SharedStep(c, allowed, s0, actions', w, t, Go, s');
    assert FreshAt(s'.store, pc.key, s'.clock) && s'.store[pc.key].value == v;
    hide Shared;
    actions' := GetServes(c, allowed, s0, actions', s', u, pc.key);
    s' := Goto(s', u, GetDone(pc.key, Some(v), None));
  }

  /** The key vanishes from the store, and a new call joins the flight of thread t. */
  lemma LoseAndJoin<K(!new), C(!new), V(!new), E(!new), P(!new)>(
      c: Config, allowed: (World<K, C, V, E, P>, Action<K, C, V, E, P>) -> bool, s0: World<K, C, V, E, P>,
      actions: seq<Action<K, C, V, E, P>>, s: World<K, C, V, E, P>, t: Tid, pc: PC<K, C, V, E, P>, u: Tid)
    returns (actions': seq<Action<K, C, V, E, P>>)
    requires Path(c, allowed, s0, actions, Goto(s, t, pc)) && !s.crashed && !c.bypass
    requires u !in s.threads && u != t && AllowsSteps(allowed) && AllowsOthers(allowed)
    requires pc.Leading? && pc.key in s.table.registered && s.table.registered[pc.key] == pc.flight
    ensures Path(c, allowed, s0, actions',
                 Goto(Goto(s.(store := s.store - {pc.key}), u, Waiting(pc.key, pc.flight, None)), t, pc))
  {
    var k := pc.key;
    var s1 := s.(store := s.store - {k});
    var waiting := Waiting(k, pc.flight, None);
    ThroughoutExtend(c, s0, actions, Goto(s, t, pc), Remove({k}), allowed);
    actions' := actions + [Remove({k})];
    assert Path(c, allowed, s0, actions', Goto(s1, t, pc));
    hide Path, Throughout, Exec, AllowsSteps;
    actions' := JoinFlight(c, allowed, s0, actions', Goto(s1, t, pc), u, k, pc.fn);
    assert Goto(Goto(s1, t, pc), u, waiting) == Goto(Goto(s1, u, waiting), t, pc);
  }

  /** A value whose flight is about to be taken off the table is served to a call that joins it. */
  lemma FlightServes<K(!new), C(!new), V(!new), E(!new), P(!new)>(
      c: Config, allowed: (World<K, C, V, E, P>, Action<K, C, V, E, P>) -> bool, s0: World<K, C, V, E, P>,
      actions: seq<Action<K, C, V, E, P>>, s: World<K, C, V, E, P>, t: Tid, pc: PC<K, C, V, E, P>, u: Tid, v: V)
    returns (actions': seq<Action<K, C, V, E, P>>, s': World<K, C, V, E, P>)
    requires Path(c, allowed, s0, actions, Goto(s, t, pc)) && !s.crashed && !c.bypass
    requires u !in s.threads && u != t && AllowsSteps(allowed) && AllowsOthers(allowed)
    requires pc.Leading? && pc.stage == Unregistering(Ok(v)) && pc.flight < |s.table.flights|
    requires s.table.flights[pc.flight].outcome == Some(Ok(v)) && s.table.flights[pc.flight].pending == 1
    requires pc.key in s.table.registered && s.table.registered[pc.key] == pc.flight
    ensures Path(c, allowed, s0, actions', s') && u in s'.threads
    ensures s'.threads[u] == Done(pc.key, Ok(v), Followed(pc.flight, None))
  {
    hide Path, AllowsSteps, AllowsOthers;
    actions' := LoseAndJoin(c, allowed, s0, actions, s, t, pc, u);
    var s1 := Goto(s.(store := s.store - {pc.key}), u, Waiting(pc.key, pc.flight, None));
    actions' := GiveUp(c, allowed, s0, actions', s1, t, pc, Ok(v));
    actions', s' := FollowerReturns(c, allowed, s0, actions',
                                    Goto(s1, t, Done(pc.key, Settle(Ok(v), pc.fallback), Led(pc.flight, pc.fallback)))
                                    .(table := Release(Unregister(s1.table, pc.key), pc.flight)), u);
  }

  /** A thread that waits for a flight that is over returns. */
  lemma FollowerReturns<K(!new), C(!new), V(!new), E(!new), P(!new)>(
      c: Config, allowed: (World<K, C, V, E, P>, Action<K, C, V, E, P>) -> bool, s0: World<K, C, V, E, P>,
      actions: seq<Action<K, C, V, E, P>>, s: World<K, C, V, E, P>, u: Tid)
    returns (actions': seq<Action<K, C, V, E, P>>, s': World<K, C, V, E, P>)
    requires Path(c, allowed, s0, actions, s) && !s.crashed && AllowsSteps(allowed)
    requires u in s.threads && s.threads[u].Waiting?
    requires var f := s.threads[u].flight;
             && f < |s.table.flights| && s.table.flights[f].pending == 0 && s.table.flights[f].outcome.Some?
    ensures Path(c, allowed, s0, actions', s') && u in s'.threads
    ensures var pc := s.threads[u];
            s'.threads[u] == Done(pc.key, Settle(s.table.flights[pc.flight].outcome.value, pc.fallback),
                                  Followed(pc.flight, pc.fallback))
  {
    assert Goto(s, u, s.threads[u]) == s by {
      assert s.threads[u := s.threads[u]] == s.threads;
    }
    var done: PC<K, C, V, E, P>;
    actions', done := LocalStep(c, allowed, s0, actions, s, u, s.threads[u], Go);
    s' := Goto(s, u, done);
  }

  /** The value that the thread holds, or the one it may come to compute. */
  function Holds<K, C, V, E, P>(pc: PC<K, C, V, E, P>, other: V): V {
    match pc
    case PutClock(_, v) => v
    case PutWrite(_, v, _) => v
    case Leading(_, _, _, _, _, SetClock(_, v)) => v
    case Leading(_, _, _, _, _, SetWrite(_, v, _)) => v
    case Leading(_, _, _, _, _, Publishing(Ok(v))) => v
    case Leading(_, _, _, _, _, Unregistering(Ok(v))) => v
    case _ => other
  }

  /** What is outstanding is going to be written. */
  lemma WriterServes<K(!new), C(!new), V(!new), E(!new), P(!new)>(
      c: Config, allowed: (World<K, C, V, E, P>, Action<K, C, V, E, P>) -> bool, s0: World<K, C, V, E, P>,
      actions: seq<Action<K, C, V, E, P>>, s: World<K, C, V, E, P>, t: Tid, pc: PC<K, C, V, E, P>, u: Tid, v: V)
    returns (actions': seq<Action<K, C, V, E, P>>, s': World<K, C, V, E, P>)
    requires Path(c, allowed, s0, actions, Goto(s, t, pc)) && !s.crashed && !c.bypass && ValidPolicy(c.policy)
    requires u !in s.threads && u != t && AllowsSteps(allowed) && AllowsOthers(allowed)
    requires || (pc.PutClock? && pc.value == v)
             || (pc.PutWrite? && pc.value == v)
             || (pc.Leading? && pc.flight < |s.table.flights| &&
                 match pc.stage
                 case Computing(_) => allowed(Goto(s, t, pc), Step(t, Yields(Ok(v))))
                 case SetClock(_, w) => w == v
                 case SetWrite(_, w, _) => w == v
                 case _ => false)
    ensures Path(c, allowed, s0, actions', s') && u in s'.threads && s'.threads[u] == GetDone(pc.key, Some(v), None)
  {
    hide Path, AllowsOthers;
    var pc' := pc;
    actions' := actions;
    if pc'.Leading? && pc'.stage.Computing? {
      actions', pc' := LocalStep(c, allowed, s0, actions', s, t, pc', Yields(Ok(v)));
    }
    if pc'.PutClock? || (pc'.Leading? && pc'.stage.SetClock?) {
      actions', pc' := LocalStep(c, allowed, s0, actions', s, t, pc', Go);
    }
    hide AllowsSteps;
    actions', s' := WriteServes(c, allowed, s0, actions', s, t, pc', u, v,
                                if pc'.PutWrite? then pc'.now else pc'.stage.now);
  }

  /** What is outstanding is going to be published. */
  lemma PublisherServes<K(!new), C(!new), V(!new), E(!new), P(!new)>(
      c: Config, allowed: (World<K, C, V, E, P>, Action<K, C, V, E, P>) -> bool, s: World<K, C, V, E, P>, t: Tid,
      u: Tid, v: V)
    returns (actions: seq<Action<K, C, V, E, P>>, s': World<K, C, V, E, P>)
    requires Safe(s) && !s.crashed && !c.bypass && u !in s.threads && t in s.threads && s.threads[t].Leading?
    requires AllowsSteps(allowed) && AllowsOthers(allowed)
    requires s.threads[t].stage == Publishing(Ok(v)) || s.threads[t].stage == Unregistering(Ok(v))
    ensures Path(c, allowed, s, actions, s') && u in s'.threads
    ensures s'.threads[u] == Done(s.threads[t].key, Ok(v), Followed(s.threads[t].flight, None))
  {
    var pc := s.threads[t];
    assert ThreadOk(s, t);
    assert Goto(s, t, pc) == s by {
      assert s.threads[t := pc] == s.threads;
    }
    actions := [];
    assert Path(c, allowed, s, actions, s);
    hide Path, AllowsOthers, Safe;
    if pc.stage.Publishing? {
      var pc' := pc.(stage := Unregistering(Ok(v)));
      var s1 := s.(table := Publish(s.table, pc.flight, Ok(v)));
      AllowsGo(allowed, s, t);
      actions := SharedStep(c, allowed, s, actions, s, t, Go, Goto(s1, t, pc'));
      actions, s' := FlightServes(c, allowed, s, actions, s1, t, pc', u, v);
    } else {
      actions, s' := FlightServes(c, allowed, s, actions, s, t, pc, u, v);
    }
  }

  /** Whenever something is outstanding for the key, there is a run without any Set and with no
      computation but those underway, on which a call that begins afterwards is served it. */
  lemma OutstandingIsServed<K(!new), C(!new), V(!new), E(!new), P(!new)>(
      c: Config, s: World<K, C, V, E, P>, t: Tid, u: Tid, other: V)
    returns (actions: seq<Action<K, C, V, E, P>>)
    requires Safe(s) && !s.crashed && !c.bypass && ValidPolicy(c.policy) && u !in s.threads
    requires t in s.threads && Outstanding(s.threads[t], StoredAt(s.store, s.threads[t].key))
    ensures Exec(c, s, actions).Some? && Made(c, s, actions, s.threads[t].key) == {}
    ensures var s' := Exec(c, s, actions).value;
            && u in s'.threads && s'.threads[u].key == s.threads[t].key
            && Served(s'.threads[u]) == Some(Holds(s.threads[t], other))
  {
    var pc := s.threads[t];
    var allowed := Idle(s);
    var s': World<K, C, V, E, P>;
    assert ThreadOk(s, t);
    IdleAllows(s);
    if pc.Leading? && (pc.stage.Publishing? || pc.stage.Unregistering?) {
      hide Safe, AllowsSteps, AllowsOthers;
      actions, s' := PublisherServes(c, allowed, s, t, u, Holds(pc, other));
    } else {
      assert Goto(s, t, pc) == s by {
        assert s.threads[t := pc] == s.threads;
      }
      assert Path(c, allowed, s, [], s);
      hide Safe, AllowsSteps, AllowsOthers, Path;
      actions, s' := WriterServes(c, allowed, s, [], s, t, pc, u, Holds(pc, other));
    }
    IdleMakesNothing(c, s, actions, pc.key);
  }

  /** From any state, every call for the key that begins afterwards is served, on every run, the stored
      value or one made afterwards, if and only if nothing is outstanding for the key. */
  lemma ServesOnlyNewIff<K(!new), C(!new), V(!new), E(!new), P(!new)>(
      c: Config, s: World<K, C, V, E, P>, k: K, other: V)
    requires Safe(s) && !s.crashed && !c.bypass && ValidPolicy(c.policy) && other !in StoredAt(s.store, k)
    ensures NothingOutstanding(s, k) <==>
              forall actions | Exec(c, s, actions).Some? ::
                ServesOnly(s, k, Exec(c, s, actions).value, StoredAt(s.store, k) + Made(c, s, actions, k))
  {
    if NothingOutstanding(s, k) {
      forall actions | Exec(c, s, actions).Some?
        ensures ServesOnly(s, k, Exec(c, s, actions).value, StoredAt(s.store, k) + Made(c, s, actions, k))
      {
        ServesOnlyNew(c, s, actions, k);
      }
    } else {
      var t :| t in s.threads && s.threads[t].key == k && Outstanding(s.threads[t], StoredAt(s.store, k));
      var u := Progress.FreshThread(s.threads);
      var actions := OutstandingIsServed(c, s, t, u, other);
      assert Holds(s.threads[t], other) !in StoredAt(s.store, k);
      hide Safe, Outstanding, Made, Exec;
      assert !ServesOnly(s, k, Exec(c, s, actions).value, StoredAt(s.store, k) + Made(c, s, actions, k));
    }
  }

  /** A `Delete` of the key leaves nothing stored; so from then on exactly if nothing is outstanding is
      every value served for the key made after the `Delete`. */
  lemma DeleteIsFinalIff<K(!new), C(!new), V(!new), E(!new), P(!new)>(
      c: Config, s: World<K, C, V, E, P>, k: K, keys: set<K>, other: V)
    requires Safe(s) && !s.crashed && !c.bypass && ValidPolicy(c.policy) && k in keys
    ensures var deleted := Apply(c, s, Remove(keys)).value;
            NothingOutstanding(deleted, k) <==>
              forall actions | Exec(c, deleted, actions).Some? ::
                ServesOnly(deleted, k, Exec(c, deleted, actions).value, Made(c, deleted, actions, k))
  {
    var deleted := Apply(c, s, Remove(keys)).value;
    ApplyKeepsSafe(c, s, Remove(keys));
    ServesOnlyNewIff(c, deleted, k, other);
    forall actions ensures StoredAt(deleted.store, k) + Made(c, deleted, actions, k) == Made(c, deleted, actions, k) {
    }
  }
}
