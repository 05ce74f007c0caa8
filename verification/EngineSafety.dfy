/** What every reachable state of the cache engine satisfies: single flight per key, exactly-once
    completion, and followers that return the outcome of the flight they joined. */
module EngineSafety {
  import opened Envelope
  import opened Flights
  import opened Engine

  /** Has the leader written the outcome of its flight? */
  predicate Published<V, E, P>(stage: Stage<V, E, P>) {
    stage.Unregistering? || stage.Releasing?
  }

  function Outcomes<V, E, P>(stage: Stage<V, E, P>): Option<Outcome<V, E, P>> {
    if Published(stage) then Some(stage.outcome) else None
  }

  /** Thread `t` is the leader of flight `f`, and the table says so. */
  predicate Leads<K(==), C, V(==), E(==), P(==)>(s: World<K, C, V, E, P>, t: Tid, f: nat) {
    && t in s.threads && s.threads[t].Leading? && s.threads[t].flight == f
    && f < |s.table.flights|
    && s.table.flights[f] == Flight(s.threads[t].key, t, Outcomes(s.threads[t].stage), 1)
  }

  /** The flight is over, for key `k`, and `r` is its outcome, settled with `fallback`. */
  predicate Settled<K(==), C, V(==), E(==), P(==)>(s: World<K, C, V, E, P>, f: nat, k: K, r: Outcome<V, E, P>,
                                                   fallback: Option<V>) {
    && f < |s.table.flights|
    && s.table.flights[f].key == k
    && s.table.flights[f].pending == 0
    && s.table.flights[f].outcome.Some?
    && r == Settle(s.table.flights[f].outcome.value, fallback)
  }

  predicate ThreadOk<K(==), C, V(==), E(==), P(==)>(s: World<K, C, V, E, P>, t: Tid)
    requires t in s.threads
  {
    match s.threads[t]
    case Leading(k, _, f, _, _, stage) =>
      Leads(s, t, f) && (!stage.Releasing? ==> k in s.table.registered && s.table.registered[k] == f)
    case Waiting(k, f, _) =>
      f < |s.table.flights| && s.table.flights[f].key == k
    case Done(k, r, Led(f, fallback)) => Settled(s, f, k, r, fallback)
    case Done(k, r, Followed(f, fallback)) => Settled(s, f, k, r, fallback)
    case _ => true
  }

  /** A flight is led by exactly its leader until it is released, once, with its outcome. */
  predicate FlightOk<K(==), C, V(==), E(==), P(==)>(s: World<K, C, V, E, P>, f: nat)
    requires f < |s.table.flights|
  {
    var flight := s.table.flights[f];
    if flight.pending == 0 then flight.outcome.Some? else Leads(s, flight.leader, f)
  }

  predicate RegisteredOk<K(==), C, V(==), E(==), P(==)>(s: World<K, C, V, E, P>, k: K)
    requires k in s.table.registered
  {
    var f := s.table.registered[k];
    && f < |s.table.flights|
    && s.table.flights[f].key == k
    && Leads(s, s.table.flights[f].leader, f)
    && !s.threads[s.table.flights[f].leader].stage.Releasing?
  }

  ghost predicate Safe<K, C, V, E, P>(s: World<K, C, V, E, P>) {
    && (forall t | t in s.threads :: ThreadOk(s, t))
    && (forall f | 0 <= f < |s.table.flights| :: FlightOk(s, f))
    && (forall k | k in s.table.registered :: RegisteredOk(s, k))
  }

  // ---------- every step keeps it ----------

  /** A step that changes one thread only, without making or ending a leader. */
  lemma LocalKeepsSafe<K, C, V, E, P>(s: World<K, C, V, E, P>, s': World<K, C, V, E, P>, t: Tid, pc: PC<K, C, V, E, P>)
    requires Safe(s)
    requires s'.table == s.table && s'.threads == s.threads[t := pc]
    requires t in s.threads && s.threads[t].Leading? ==>
               pc.Leading? && pc.key == s.threads[t].key && pc.flight == s.threads[t].flight
               && Outcomes(pc.stage) == Outcomes(s.threads[t].stage)
               && pc.stage.Releasing? == s.threads[t].stage.Releasing?
    requires !(t in s.threads && s.threads[t].Leading?) ==> !pc.Leading? && ThreadOk(s', t)
    ensures Safe(s')
  {
    forall u | u in s'.threads ensures ThreadOk(s', u) {
      assert u != t ==> ThreadOk(s, u);
      assert t in s.threads ==> ThreadOk(s, t);
    }
    forall f | 0 <= f < |s'.table.flights| ensures FlightOk(s', f) {
      assert FlightOk(s, f);
    }
    forall k | k in s'.table.registered ensures RegisteredOk(s', k) {
      assert RegisteredOk(s, k);
    }
  }

  /** Starting a flight for an unregistered key; `u` becomes its leader. */
  lemma StartKeepsSafe<K, C, V, E, P>(s: World<K, C, V, E, P>, s': World<K, C, V, E, P>, u: Tid, pc: PC<K, C, V, E, P>)
    requires Safe(s) && !(u in s.threads && s.threads[u].Leading?)
    requires pc.Leading? && pc.flight == |s.table.flights| && pc.key !in s.table.registered && !Published(pc.stage)
    requires s'.table == Start(s.table, pc.key, u) && s'.threads == s.threads[u := pc]
    ensures Safe(s')
  {
    forall t | t in s'.threads ensures ThreadOk(s', t) {
      assert t != u ==> ThreadOk(s, t);
    }
    forall f | 0 <= f < |s'.table.flights| ensures FlightOk(s', f) {
      assert f < |s.table.flights| ==> FlightOk(s, f);
    }
    forall k | k in s'.table.registered ensures RegisteredOk(s', k) {
      assert k != pc.key ==> RegisteredOk(s, k);
    }
  }

  lemma PublishKeepsSafe<K, C, V, E, P>(s: World<K, C, V, E, P>, s': World<K, C, V, E, P>, t: Tid, o: Outcome<V, E, P>)
    requires Safe(s) && t in s.threads && s.threads[t].Leading? && s.threads[t].stage == Publishing(o)
    requires s.threads[t].flight < |s.table.flights|
    requires s'.table == Publish(s.table, s.threads[t].flight, o)
    requires s'.threads == s.threads[t := s.threads[t].(stage := Unregistering(o))]
    ensures Safe(s')
  {
    assert ThreadOk(s, t);
    forall u | u in s'.threads ensures ThreadOk(s', u) {
      assert ThreadOk(s, u);
    }
    forall f | 0 <= f < |s'.table.flights| ensures FlightOk(s', f) {
      assert FlightOk(s, f);
    }
    forall k | k in s'.table.registered ensures RegisteredOk(s', k) {
      assert RegisteredOk(s, k);
    }
  }

  /** The registry entry that a leader deletes is its own flight's. */
  lemma UnregisterKeepsSafe<K, C, V, E, P>(s: World<K, C, V, E, P>, s': World<K, C, V, E, P>, t: Tid,
                                           o: Outcome<V, E, P>)
    requires Safe(s) && t in s.threads && s.threads[t].Leading? && s.threads[t].stage == Unregistering(o)
    requires s'.table == Unregister(s.table, s.threads[t].key)
    requires s'.threads == s.threads[t := s.threads[t].(stage := Releasing(o))]
    ensures Safe(s')
  {
    assert ThreadOk(s, t);
    forall u | u in s'.threads ensures ThreadOk(s', u) {
      assert ThreadOk(s, u);
    }
    forall f | 0 <= f < |s'.table.flights| ensures FlightOk(s', f) {
      assert FlightOk(s, f);
    }
    forall k | k in s'.table.registered ensures RegisteredOk(s', k) {
      assert RegisteredOk(s, k);
    }
  }

  lemma ReleaseKeepsSafe<K, C, V, E, P>(s: World<K, C, V, E, P>, s': World<K, C, V, E, P>, t: Tid, o: Outcome<V, E, P>)
    requires Safe(s) && t in s.threads && s.threads[t].Leading? && s.threads[t].stage == Releasing(o)
    requires s.threads[t].flight < |s.table.flights|
    requires s'.table == Release(s.table, s.threads[t].flight)
    requires var pc := s.threads[t];
             s'.threads == s.threads[t := Done(pc.key, Settle(o, pc.fallback), Led(pc.flight, pc.fallback))]
    ensures Safe(s')
  {
    assert ThreadOk(s, t);
    forall u | u in s'.threads ensures ThreadOk(s', u) {
      assert ThreadOk(s, u);
    }
    forall f | 0 <= f < |s'.table.flights| ensures FlightOk(s', f) {
      assert FlightOk(s, f);
    }
    forall k | k in s'.table.registered ensures RegisteredOk(s', k) {
      assert RegisteredOk(s, k);
    }
  }

  /** What a local step makes of a thread's program counter. */
  lemma LocalShape<K, C, V, E, P>(c: Config, s: World<K, C, V, E, P>, pc: PC<K, C, V, E, P>, x: Choice<V, E, P>)
    requires Local(c, s, pc, x).Some?
    ensures var pc' := Local(c, s, pc, x).value;
            && (pc.Leading? <==> pc'.Leading?)
            && (pc.Leading? ==> pc'.key == pc.key && pc'.flight == pc.flight)
            && (pc.Leading? ==> !Published(pc.stage) && !Published(pc'.stage))
            && (pc'.Waiting? ==> pc'.key in s.table.registered && pc'.flight == s.table.registered[pc'.key])
            && !(pc'.Done? && pc'.via.Led?)
    ensures var pc' := Local(c, s, pc, x).value;
            pc'.Done? && pc'.via.Followed? ==>
              var f := pc'.via.flight;
              && pc == Waiting(pc'.key, f, pc'.via.fallback)
              && f < |s.table.flights| && s.table.flights[f].pending == 0 && s.table.flights[f].outcome.Some?
              && pc'.result == Settle(s.table.flights[f].outcome.value, pc'.via.fallback)
  {
  }

  lemma LocalStepKeepsSafe<K, C, V, E, P>(c: Config, s: World<K, C, V, E, P>, t: Tid, x: Choice<V, E, P>)
    requires Safe(s) && t in s.threads && Local(c, s, s.threads[t], x).Some?
    ensures Safe(Goto(s, t, Local(c, s, s.threads[t], x).value))
  {
    hide Local;
    var pc := Local(c, s, s.threads[t], x).value;
    LocalShape(c, s, s.threads[t], x);
    assert ThreadOk(s, t);
    if pc.Waiting? {
      assert RegisteredOk(s, pc.key);
    }
    hide Safe;
    LocalKeepsSafe(s, Goto(s, t, pc), t, pc);
  }

  lemma SharedStageKeepsSafe<K, C, V, E, P>(c: Config, s: World<K, C, V, E, P>, t: Tid, x: Choice<V, E, P>)
    requires Safe(s) && t in s.threads && s.threads[t].Leading? && SharedStage(c, s, t, s.threads[t], x).Some?
    ensures Safe(SharedStage(c, s, t, s.threads[t], x).value)
  {
    hide Safe;
    var s' := SharedStage(c, s, t, s.threads[t], x).value;
    match s.threads[t].stage
    case Computing(_) => SameThreadsSafe(s, s');
    case SetWrite(_, _, _) => LocalKeepsSafe(s, s', t, s'.threads[t]);
    case Publishing(o) => PublishKeepsSafe(s, s', t, o);
    case Unregistering(o) => UnregisterKeepsSafe(s, s', t, o);
    case Releasing(o) => ReleaseKeepsSafe(s, s', t, o);
  }

  lemma SharedStepKeepsSafe<K, C, V, E, P>(c: Config, s: World<K, C, V, E, P>, t: Tid, x: Choice<V, E, P>)
    requires Safe(s) && t in s.threads && Shared(c, s, t, s.threads[t], x).Some?
    ensures Safe(Shared(c, s, t, s.threads[t], x).value)
  {
    hide Safe;
    var s' := Shared(c, s, t, s.threads[t], x).value;
    match s.threads[t]
    case AtRefresh(k, fn, v) =>
      var done := Goto(s, t, Done(k, Ok(v), StaleHit));
      LocalKeepsSafe(s, done, t, Done(k, Ok(v), StaleHit));
      StartKeepsSafe(done, s', x.child, s'.threads[x.child]);
    case AtDo(k, fn, fallback) =>
      StartKeepsSafe(s, s', t, s'.threads[t]);
    case PutWrite(k, v, now) =>
      LocalKeepsSafe(s, s', t, s'.threads[t]);
    case Leading(_, _, _, _, _, _) =>
      SharedStageKeepsSafe(c, s, t, x);
  }

  lemma ApplyKeepsSafe<K, C, V, E, P>(c: Config, s: World<K, C, V, E, P>, a: Action<K, C, V, E, P>)
    requires Safe(s) && Apply(c, s, a).Some?
    ensures Safe(Apply(c, s, a).value)
  {
    hide Safe;
    var s' := Apply(c, s, a).value;
    match a
    case Call(t, k, fn) => LocalKeepsSafe(s, s', t, s'.threads[t]);
    case CallGet(t, k) => LocalKeepsSafe(s, s', t, s'.threads[t]);
    case CallSet(t, k, v) => LocalKeepsSafe(s, s', t, s'.threads[t]);
    case Tick(_) => SameThreadsSafe(s, s');
    case Remove(_) => SameThreadsSafe(s, s');
    case Step(t, x) =>
      if Local(c, s, s.threads[t], x).Some? {
        LocalStepKeepsSafe(c, s, t, x);
      } else {
        SharedStepKeepsSafe(c, s, t, x);
      }
  }

  lemma SameThreadsSafe<K, C, V, E, P>(s: World<K, C, V, E, P>, s': World<K, C, V, E, P>)
    requires Safe(s) && s'.table == s.table && s'.threads == s.threads
    ensures Safe(s')
  {
    forall t | t in s'.threads ensures ThreadOk(s', t) {
      assert ThreadOk(s, t);
    }
    forall f | 0 <= f < |s'.table.flights| ensures FlightOk(s', f) {
      assert FlightOk(s, f);
    }
    forall k | k in s'.table.registered ensures RegisteredOk(s', k) {
      assert RegisteredOk(s, k);
    }
  }

  /** Every reachable state is safe. */
  lemma {:induction false} ExecSafe<K, C, V, E, P>(c: Config, clock: Time, actions: seq<Action<K, C, V, E, P>>)
    requires Exec(c, Init(clock), actions).Some?
    ensures Safe(Exec(c, Init(clock), actions).value)
  {
    if actions != [] {
      var before := actions[..|actions| - 1];
      ExecSafe(c, clock, before);
      ApplyKeepsSafe(c, Exec(c, Init<K, C, V, E, P>(clock), before).value, actions[|actions| - 1]);
    }
  }

  // ---------- what safety means for callers ----------

  /** At most one flight per key is in progress, foreground or background: two leaders that have
      not yet given up the key are the same thread with the same flight. */
  lemma SingleFlight<K, C, V, E, P>(c: Config, clock: Time, actions: seq<Action<K, C, V, E, P>>, t: Tid, u: Tid)
    requires Exec(c, Init(clock), actions).Some?
    requires var s := Exec(c, Init(clock), actions).value;
             && t in s.threads && s.threads[t].Leading? && !s.threads[t].stage.Releasing?
             && u in s.threads && s.threads[u].Leading? && !s.threads[u].stage.Releasing?
             && s.threads[t].key == s.threads[u].key
    ensures t == u
  {
    ExecSafe(c, clock, actions);
    var s := Exec(c, Init(clock), actions).value;
    assert ThreadOk(s, t) && ThreadOk(s, u);
  }

  /** How one flight may change: its outcome is written once and its waiters are released once. */
  predicate FlightEvolves<K(==), V(==), E(==), P(==)>(a: Flight<K, V, E, P>, b: Flight<K, V, E, P>) {
    && b.key == a.key && b.leader == a.leader
    && (a.outcome.Some? ==> b.outcome == a.outcome)
    && 0 <= b.pending <= a.pending <= 1
    && (b.pending == 0 ==> b.outcome.Some?)
  }

  ghost predicate Evolves<K, V, E, P>(t: Table<K, V, E, P>, t': Table<K, V, E, P>) {
    && |t.flights| <= |t'.flights|
    && forall f | 0 <= f < |t.flights| :: FlightEvolves(t.flights[f], t'.flights[f])
  }

  lemma StepEvolves<K, C, V, E, P>(c: Config, s: World<K, C, V, E, P>, a: Action<K, C, V, E, P>)
    requires Safe(s) && Apply(c, s, a).Some?
    ensures Evolves(s.table, Apply(c, s, a).value.table)
  {
    var s' := Apply(c, s, a).value;
    forall f | 0 <= f < |s.table.flights| ensures FlightEvolves(s.table.flights[f], s.table.flights[f]) {
      assert FlightOk(s, f);
    }
    if s'.table != s.table {
      assert ThreadOk(s, a.t);
      hide Safe, Local;
      TableSteps(c, s, a);
    }
  }

  /** The flight table changes only where a flight starts, publishes, unregisters or releases. */
  lemma TableSteps<K, C, V, E, P>(c: Config, s: World<K, C, V, E, P>, a: Action<K, C, V, E, P>)
    requires Apply(c, s, a).Some? && Apply(c, s, a).value.table != s.table
    ensures a.Step? && a.t in s.threads
    ensures var pc := s.threads[a.t]; var t' := Apply(c, s, a).value.table;
            || (exists u :: t' == Start(s.table, pc.key, u))
            || (pc.Leading? && pc.flight < |s.table.flights| &&
                match pc.stage
                case Publishing(o) => t' == Publish(s.table, pc.flight, o)
                case Unregistering(o) => t' == Unregister(s.table, pc.key)
                case Releasing(o) => t' == Release(s.table, pc.flight)
                case _ => false)
  {
    assert Local(c, s, s.threads[a.t], a.choice).None?;
    hide Local;
  }

  lemma {:induction false} ExecEvolves<K, C, V, E, P>(c: Config, s: World<K, C, V, E, P>,
                                                      actions: seq<Action<K, C, V, E, P>>)
    requires Safe(s) && Exec(c, s, actions).Some?
    ensures Safe(Exec(c, s, actions).value)
    ensures Evolves(s.table, Exec(c, s, actions).value.table)
  {
    if actions == [] {
      forall f | 0 <= f < |s.table.flights| ensures FlightEvolves(s.table.flights[f], s.table.flights[f]) {
        assert FlightOk(s, f);
      }
    } else {
      var before := actions[..|actions| - 1];
      var m := Exec(c, s, before).value;
      ExecEvolves(c, s, before);
      ApplyKeepsSafe(c, m, actions[|actions| - 1]);
      StepEvolves(c, m, actions[|actions| - 1]);
    }
  }

  /** A thread that has returned stays as it is, and a waiting thread can only return. */
  lemma WaiterSteps<K, C, V, E, P>(c: Config, s: World<K, C, V, E, P>, a: Action<K, C, V, E, P>, t: Tid)
    requires Apply(c, s, a).Some? && t in s.threads && (s.threads[t].Waiting? || s.threads[t].Done?)
    ensures t in Apply(c, s, a).value.threads
    ensures var s' := Apply(c, s, a).value;
            || s'.threads[t] == s.threads[t]
            || (s.threads[t].Waiting? && s'.threads[t].Done?
                && s'.threads[t].key == s.threads[t].key
                && s'.threads[t].via == Followed(s.threads[t].flight, s.threads[t].fallback))
  {
  }

  /** A follower returns exactly the outcome of the flight it joined, whatever happens meanwhile:
      later flights for the same key do not matter, and the outcome never changes again. */
  lemma {:induction false} FollowerFate<K, C, V, E, P>(
      c: Config, s: World<K, C, V, E, P>, actions: seq<Action<K, C, V, E, P>>, t: Tid)
    requires Safe(s) && Exec(c, s, actions).Some?
    requires t in s.threads && s.threads[t].Waiting?
    ensures t in Exec(c, s, actions).value.threads
    ensures var s' := Exec(c, s, actions).value; var f, k, fallback := s.threads[t].flight, s.threads[t].key,
        s.threads[t].fallback;
            || s'.threads[t] == s.threads[t]
            || (s'.threads[t].Done? && s'.threads[t].key == k && s'.threads[t].via == Followed(f, fallback)
                && Settled(s', f, k, s'.threads[t].result, fallback))
  {
    if actions != [] {
      var before := actions[..|actions| - 1];
      FollowerFate(c, s, before, t);
      WaiterSteps(c, Exec(c, s, before).value, actions[|actions| - 1], t);
      ExecEvolves(c, s, actions);
      assert ThreadOk(Exec(c, s, actions).value, t);
    }
  }

  /** A leader whose computation is over, and a thread that has returned. */
  predicate Finishing<K, C, V, E, P>(pc: PC<K, C, V, E, P>) {
    || pc.Done?
    || (pc.Leading? && (pc.stage.Publishing? || Published(pc.stage)))
  }

  /** A finishing thread changes the store with none of its steps, and no step of any thread makes
      it do anything but finish. */
  lemma FinishingSteps<K, C, V, E, P>(c: Config, s: World<K, C, V, E, P>, a: Action<K, C, V, E, P>, t: Tid)
    requires Apply(c, s, a).Some? && t in s.threads && Finishing(s.threads[t])
    ensures var s' := Apply(c, s, a).value;
            && t in s'.threads && Finishing(s'.threads[t])
            && (a.Step? && a.t == t ==> s'.store == s.store)
  {
  }

  /** No step of thread t on a run from `s` changes the store. */
  predicate NeverWrites<K, C, V(==), E, P>(c: Config, s: World<K, C, V, E, P>, actions: seq<Action<K, C, V, E, P>>,
                                           t: Tid) {
    if actions == [] then true
    else
      var before, last := actions[..|actions| - 1], actions[|actions| - 1];
      var m, m' := Exec(c, s, before), Exec(c, s, actions);
      && NeverWrites(c, s, before, t)
      && (last.Step? && last.t == t && m'.Some? ==> m.Some? && m'.value.store == m.value.store)
  }

  lemma {:induction false} FinishingNeverWrites<K, C, V, E, P>(
      c: Config, s: World<K, C, V, E, P>, actions: seq<Action<K, C, V, E, P>>, t: Tid)
    requires Exec(c, s, actions).Some? && t in s.threads && Finishing(s.threads[t])
    ensures t in Exec(c, s, actions).value.threads && Finishing(Exec(c, s, actions).value.threads[t])
    ensures NeverWrites(c, s, actions, t)
  {
    if actions != [] {
      var n := |actions| - 1;
      FinishingNeverWrites(c, s, actions[..n], t);
      FinishingSteps(c, Exec(c, s, actions[..n]).value, actions[n], t);
      hide Apply, Finishing;
    }
  }

  /** A computation that fails or panics leaves the store as it is, and from then on its thread never
      writes: on every run that follows, whatever other threads do, it only finishes, unless a panic
      in a background refresh has ended the process. */
  lemma FailureLeavesStore<K, C, V, E, P>(c: Config, s: World<K, C, V, E, P>, t: Tid, o: Outcome<V, E, P>,
                                          actions: seq<Action<K, C, V, E, P>>)
    requires Apply(c, s, Step(t, Yields(o))).Some? && !o.Ok?
    requires Exec(c, Apply(c, s, Step(t, Yields(o))).value, actions).Some?
    ensures var failed := Apply(c, s, Step(t, Yields(o))).value; var s' := Exec(c, failed, actions).value;
            && failed.store == s.store && NeverWrites(c, failed, actions, t)
            && (s'.crashed || (t in s'.threads && Finishing(s'.threads[t])))
  {
    var failed := Apply(c, s, Step(t, Yields(o))).value;
    FailingStep(c, s, t, o);
    hide Apply, Finishing;
    if failed.crashed {
      CrashEnds(c, failed, actions);
    } else {
      FinishingNeverWrites(c, failed, actions, t);
    }
  }

  lemma FailingStep<K, C, V, E, P>(c: Config, s: World<K, C, V, E, P>, t: Tid, o: Outcome<V, E, P>)
    requires Apply(c, s, Step(t, Yields(o))).Some? && !o.Ok?
    ensures var failed := Apply(c, s, Step(t, Yields(o))).value;
            failed.store == s.store && t in failed.threads && (failed.crashed || Finishing(failed.threads[t]))
  {
  }

  lemma {:induction false} CrashEnds<K, C, V, E, P>(c: Config, s: World<K, C, V, E, P>,
                                                    actions: seq<Action<K, C, V, E, P>>)
    requires s.crashed && Exec(c, s, actions).Some?
    ensures actions == []
  {
    if actions != [] {
      CrashEnds(c, s, actions[..|actions| - 1]);
    }
  }
}
