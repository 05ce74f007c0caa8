/** Memoization transparency: under every interleaving, a value that a call returns was computed
    for its key or set for its key. */
module EngineTransparency {
  import opened Envelope
  import opened Flights
  import opened Engine
  import opened EngineSafety

  /** `good(k, v)`: v is a proper value for k. `fits(k, fn)`: fn is a compute function for k.
      `failures`: may computations and the store fail? */
  datatype Spec<!K, !C, !V> = Spec(good: (K, V) -> bool, fits: (K, C) -> bool, failures: bool)

  predicate GoodOption<K, C, V>(spec: Spec<K, C, V>, k: K, v: Option<V>) {
    v.Some? ==> spec.good(k, v.value)
  }

  predicate GoodOutcome<K, C, V, E, P>(spec: Spec<K, C, V>, k: K, o: Outcome<V, E, P>) {
    if o.Ok? then spec.good(k, o.value) else spec.failures
  }

  predicate GoodStage<K, C, V, E, P>(spec: Spec<K, C, V>, k: K, stage: Stage<V, E, P>) {
    match stage
    case SetClock(_, v) => spec.good(k, v)
    case SetWrite(_, v, _) => spec.good(k, v)
    case Publishing(o) => GoodOutcome(spec, k, o)
    case Unregistering(o) => GoodOutcome(spec, k, o)
    case Releasing(o) => GoodOutcome(spec, k, o)
    case _ => true
  }

  predicate GoodThread<K, C, V, E, P>(spec: Spec<K, C, V>, pc: PC<K, C, V, E, P>) {
    match pc
    case AtClock(k, fn) => spec.fits(k, fn)
    case AtBypass(k, fn) => spec.fits(k, fn)
    case AtFresh(k, fn, _) => spec.fits(k, fn)
    case AtLookup(k, fn, _) => spec.fits(k, fn)
    case AtEntry(k, fn, _) => spec.fits(k, fn)
    case AtRefresh(k, fn, v) => spec.fits(k, fn) && spec.good(k, v)
    case AtDo(k, fn, fallback) => spec.fits(k, fn) && GoodOption(spec, k, fallback)
    case Waiting(k, _, fallback) => GoodOption(spec, k, fallback)
    case Leading(k, fn, _, fallback, _, stage) =>
      spec.fits(k, fn) && GoodOption(spec, k, fallback) && GoodStage(spec, k, stage)
    case Done(k, r, _) => GoodOutcome(spec, k, r)
    case GetDone(k, found, _) => GoodOption(spec, k, found)
    case PutClock(k, v) => spec.good(k, v)
    case PutWrite(k, v, _) => spec.good(k, v)
    case _ => true
  }

  predicate GoodFlight<K, C, V, E, P>(spec: Spec<K, C, V>, flight: Flight<K, V, E, P>) {
    flight.outcome.Some? ==> GoodOutcome(spec, flight.key, flight.outcome.value)
  }

  /** Everything the cache holds or has returned is good. */
  ghost predicate Truthful<K, C, V, E, P>(spec: Spec<K, C, V>, s: World<K, C, V, E, P>) {
    && (forall k | k in s.store :: spec.good(k, s.store[k].value))
    && (forall t | t in s.threads :: GoodThread(spec, s.threads[t]))
    && (forall f | 0 <= f < |s.table.flights| :: GoodFlight(spec, s.table.flights[f]))
  }

  /** What is asked of the callers: calls pass a compute function that fits the key, explicit Sets
      pass a good value, and a computation that succeeds for a key returns a good value for it. */
  predicate HonestAction<K, C, V, E, P>(spec: Spec<K, C, V>, s: World<K, C, V, E, P>, a: Action<K, C, V, E, P>) {
    match a
    case Call(_, k, fn) => spec.fits(k, fn)
    case CallSet(_, k, v) => spec.good(k, v)
    case Step(t, Yields(o)) =>
      && t in s.threads && (s.threads[t].AtBypass? || s.threads[t].Leading?)
      && spec.fits(s.threads[t].key, s.threads[t].fn) ==>
        GoodOutcome(spec, s.threads[t].key, o)
    case Step(t, StoreFails(_, _)) => spec.failures
    case Step(t, WriteFails(_, _)) => spec.failures
    case _ => true
  }

  ghost predicate HonestRun<K, C, V, E, P>(spec: Spec<K, C, V>, c: Config, s: World<K, C, V, E, P>,
                                           actions: seq<Action<K, C, V, E, P>>) {
    Throughout(c, s, actions, (w, a) => HonestAction(spec, w, a))
  }

  // ---------- every honest step keeps it ----------

  lemma GoodStageStep<K, C, V, E, P>(spec: Spec<K, C, V>, c: Config, clock: Time, store: map<K, Stored<V>>, k: K,
                                     background: bool, stage: Stage<V, E, P>, x: Choice<V, E, P>)
    requires LocalStage(c, clock, store, k, background, stage, x).Some?
    requires GoodStage(spec, k, stage)
    requires k in store ==> spec.good(k, store[k].value)
    requires x.Yields? ==> GoodOutcome(spec, k, x.outcome)
    requires x.StoreFails? ==> spec.failures
    ensures GoodStage(spec, k, LocalStage(c, clock, store, k, background, stage, x).value)
  {
  }

  /** A local step needs no more than that what it reads is good. */
  lemma GoodLocal<K, C, V, E, P>(spec: Spec<K, C, V>, c: Config, s: World<K, C, V, E, P>, pc: PC<K, C, V, E, P>,
                                 x: Choice<V, E, P>)
    requires GoodThread(spec, pc) && Local(c, s, pc, x).Some?
    requires pc.key in s.store ==> spec.good(pc.key, s.store[pc.key].value)
    requires pc.Waiting? && pc.flight < |s.table.flights| ==>
               s.table.flights[pc.flight].key == pc.key && GoodFlight(spec, s.table.flights[pc.flight])
    requires x.Yields? && (pc.AtBypass? || pc.Leading?) ==> GoodOutcome(spec, pc.key, x.outcome)
    requires x.StoreFails? ==> spec.failures
    ensures GoodThread(spec, Local(c, s, pc, x).value)
  {
    match pc
    case Leading(k, _, _, _, background, stage) =>
      GoodStageStep(spec, c, s.clock, s.store, k, background, stage, x);
    case _ =>
  }

  lemma GoodLocalStep<K, C, V, E, P>(spec: Spec<K, C, V>, c: Config, s: World<K, C, V, E, P>, t: Tid,
                                     x: Choice<V, E, P>)
    requires Truthful(spec, s) && t in s.threads
    requires Local(c, s, s.threads[t], x).Some?
    requires ThreadOk(s, t) && HonestAction(spec, s, Step(t, x))
    ensures GoodThread(spec, Local(c, s, s.threads[t], x).value)
  {
    hide Local;
    assert GoodThread(spec, s.threads[t]);
    GoodLocal(spec, c, s, s.threads[t], x);
  }

  lemma GoodGoto<K, C, V, E, P>(spec: Spec<K, C, V>, s: World<K, C, V, E, P>, t: Tid, pc: PC<K, C, V, E, P>)
    requires Truthful(spec, s) && GoodThread(spec, pc)
    ensures Truthful(spec, Goto(s, t, pc))
  {
  }

  lemma GoodWrite<K, C, V, E, P>(spec: Spec<K, C, V>, s: World<K, C, V, E, P>, k: K, e: Stored<V>)
    requires Truthful(spec, s) && spec.good(k, e.value)
    ensures Truthful(spec, s.(store := s.store[k := e]))
  {
  }

  lemma GoodWindows<K, C, V, E, P>(spec: Spec<K, C, V>, s: World<K, C, V, E, P>, w: seq<Window<K>>, crashed: bool)
    requires Truthful(spec, s)
    ensures Truthful(spec, s.(windows := w, crashed := crashed))
  {
  }

  lemma GoodTable<K, C, V, E, P>(spec: Spec<K, C, V>, s: World<K, C, V, E, P>, t: Table<K, V, E, P>)
    requires Truthful(spec, s)
    requires forall f | 0 <= f < |t.flights| :: GoodFlight(spec, t.flights[f])
    ensures Truthful(spec, s.(table := t))
  {
  }

  lemma GoodSharedStage<K, C, V, E, P>(spec: Spec<K, C, V>, c: Config, s: World<K, C, V, E, P>, t: Tid,
                                       pc: PC<K, C, V, E, P>, x: Choice<V, E, P>)
    requires Truthful(spec, s) && t in s.threads && s.threads[t] == pc
    requires pc.Leading? && SharedStage(c, s, t, pc, x).Some?
    requires ThreadOk(s, t) && (x.WriteFails? ==> spec.failures)
    ensures Truthful(spec, SharedStage(c, s, t, pc, x).value)
  {
    var s' := SharedStage(c, s, t, pc, x).value;
    assert GoodThread(spec, pc);
    match pc.stage
    case Computing(_) =>
      GoodWindows(spec, s, s.windows, true);
    case SetWrite(_, v, now) =>
      GoodWrite(spec, s, pc.key, Seal(c.policy, v, now));
      hide Truthful;
      GoodWindows(spec, s.(store := s'.store), s'.windows, s.crashed);
      GoodGoto(spec, s.(store := s'.store, windows := s'.windows), t, s'.threads[t]);
    case Publishing(o) =>
      GoodTable(spec, s, Publish(s.table, pc.flight, o));
      hide Truthful;
      GoodGoto(spec, s.(table := s'.table), t, s'.threads[t]);
    case Unregistering(o) =>
      GoodTable(spec, s, Unregister(s.table, pc.key));
      hide Truthful;
      GoodGoto(spec, s.(table := s'.table), t, s'.threads[t]);
    case Releasing(o) =>
      GoodTable(spec, s, Release(s.table, pc.flight));
      hide Truthful;
      GoodGoto(spec, s.(table := s'.table), t, s'.threads[t]);
  }

  lemma GoodSharedStep<K, C, V, E, P>(spec: Spec<K, C, V>, c: Config, s: World<K, C, V, E, P>, t: Tid,
                                      x: Choice<V, E, P>)
    requires Truthful(spec, s) && t in s.threads
    requires Shared(c, s, t, s.threads[t], x).Some?
    requires ThreadOk(s, t) && (x.WriteFails? ==> spec.failures)
    ensures Truthful(spec, Shared(c, s, t, s.threads[t], x).value)
  {
    var pc := s.threads[t];
    var s' := Shared(c, s, t, pc, x).value;
    assert GoodThread(spec, pc);
    match pc
    case AtRefresh(k, fn, v) =>
      GoodTable(spec, s, Start(s.table, k, x.child));
      hide Truthful;
      GoodGoto(spec, s.(table := s'.table), t, s'.threads[t]);
      GoodGoto(spec, Goto(s.(table := s'.table), t, s'.threads[t]), x.child, s'.threads[x.child]);
    case AtDo(k, fn, fallback) =>
      GoodTable(spec, s, Start(s.table, k, t));
      hide Truthful;
      GoodGoto(spec, s.(table := s'.table), t, s'.threads[t]);
    case Leading(_, _, _, _, _, _) =>
      hide Truthful;
      GoodSharedStage(spec, c, s, t, pc, x);
    case PutWrite(k, v, now) =>
      GoodWrite(spec, s, k, Seal(c.policy, v, now));
      hide Truthful;
      GoodGoto(spec, s.(store := s'.store), t, s'.threads[t]);
  }

  lemma {:induction false} ExecTruthful<K, C, V, E, P>(
      spec: Spec<K, C, V>, c: Config, clock: Time, actions: seq<Action<K, C, V, E, P>>)
    requires Exec(c, Init(clock), actions).Some?
    requires HonestRun(spec, c, Init(clock), actions)
    ensures Truthful(spec, Exec(c, Init(clock), actions).value)
  {
    if actions != [] {
      var before, a := actions[..|actions| - 1], actions[|actions| - 1];
      ThroughoutPrefix(c, Init(clock), actions, (w, a) => HonestAction(spec, w, a));
      ExecTruthful(spec, c, clock, before);
      ExecSafe(c, clock, before);
      var s := Exec(c, Init<K, C, V, E, P>(clock), before).value;
      ApplyTruthful(spec, c, s, a);
    }
  }

  lemma ApplyTruthful<K, C, V, E, P>(spec: Spec<K, C, V>, c: Config, s: World<K, C, V, E, P>, a: Action<K, C, V, E, P>)
    requires Safe(s) && Truthful(spec, s) && Apply(c, s, a).Some?
    requires HonestAction(spec, s, a)
    ensures Truthful(spec, Apply(c, s, a).value)
  {
    if a.Step? {
      assert ThreadOk(s, a.t);
      hide Safe;
      if Local(c, s, s.threads[a.t], a.choice).Some? {
        GoodLocalStep(spec, c, s, a.t, a.choice);
        hide Local;
        GoodGoto(spec, s, a.t, Local(c, s, s.threads[a.t], a.choice).value);
      } else {
        hide Local;
        GoodSharedStep(spec, c, s, a.t, a.choice);
      }
    } else if !a.Tick? && !a.Remove? {
      GoodGoto(spec, s, a.t, Apply(c, s, a).value.threads[a.t]);
    }
  }

  /** Values are those of `f`; computations and the store may also fail. */
  ghost function Computes<K, C, V>(f: K -> V): Spec<K, C, V> {
    Spec((k, v) => v == f(k), (k, fn) => true, true)
  }

  /** Transparency. If every computation that succeeds for key k returns f(k), and explicit Sets
      agree, then on every run each call of `GetOrCompute` that returns a value returns f of its
      key, and so does each `Get` that finds one: by a fresh hit, a stale hit, as leader, as
      follower, or by stale-on-error. */
  lemma Transparency<K, C, V, E, P>(f: K -> V, c: Config, clock: Time, actions: seq<Action<K, C, V, E, P>>, t: Tid)
    requires Exec(c, Init(clock), actions).Some?
    requires HonestRun(Computes<K, C, V>(f), c, Init(clock), actions)
    requires t in Exec(c, Init(clock), actions).value.threads
    ensures var pc := Exec(c, Init(clock), actions).value.threads[t];
            && (pc.Done? && pc.result.Ok? ==> pc.result.value == f(pc.key))
            && (pc.GetDone? && pc.found.Some? ==> pc.found.value == f(pc.key))
  {
    ExecTruthful(Computes<K, C, V>(f), c, clock, actions);
    assert GoodThread(Computes<K, C, V>(f), Exec(c, Init(clock), actions).value.threads[t]);
  }
}
