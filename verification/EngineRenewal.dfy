/** What may be served for a key after it was deleted or set: exactly if nobody is about to write or to
    publish an older value at that moment, every call that begins afterwards is served a value that was
    set, or whose computation began, afterwards. */
module EngineRenewal {
  import opened Envelope
  import opened Flights
  import opened Engine
  import opened EngineSafety
  import opened EngineTransparency

  /** The value that a call has been served. */
  function Served<K, C, V, E, P>(pc: PC<K, C, V, E, P>): Option<V> {
    match pc
    case Done(_, Ok(v), _) => Some(v)
    case GetDone(_, found, _) => found
    case _ => None
  }

  function StoredAt<K, V>(store: map<K, Stored<V>>, k: K): set<V> {
    if k in store then {store[k].value} else {}
  }

  /** Is the thread computing already? */
  predicate Underway<K, C, V, E, P>(s: World<K, C, V, E, P>, t: Tid) {
    t in s.threads && s.threads[t].Leading? && s.threads[t].stage.Computing?
  }

  /** Did the computation that thread t ends in m begin before `s`, or may it have? */
  predicate BegunBefore<K, C, V, E, P>(s: World<K, C, V, E, P>, m: World<K, C, V, E, P>, t: Tid)
    requires t in m.threads
  {
    if m.threads[t].Leading? then Underway(s, t) else t in s.threads
  }

  /** What action `a`, in state m of a run from `s`, adds to the values made for the key: the value of a
      Set, or that of a computation which was not underway in `s`. */
  function MadeBy<K, C, V, E, P>(s: World<K, C, V, E, P>, m: World<K, C, V, E, P>, a: Action<K, C, V, E, P>, k: K)
    : set<V>
  {
    match a
    case CallSet(_, k', v) => if k' == k then {v} else {}
    case Step(t, Yields(Ok(v))) =>
      if t in m.threads && m.threads[t].key == k && !BegunBefore(s, m, t) then {v} else {}
    case _ => {}
  }

  /** The values that a run from `s` sets for the key, or begins to compute and computes. */
  function Made<K, C, V, E, P>(c: Config, s: World<K, C, V, E, P>, actions: seq<Action<K, C, V, E, P>>, k: K)
    : set<V>
  {
    if actions == [] then {}
    else
      var before := actions[..|actions| - 1];
      Made(c, s, before, k) + match Exec(c, s, before)
                              case None => {}
                              case Some(m) => MadeBy(s, m, actions[|actions| - 1], k)
  }

  /** The thread is computing a value, or holds one that it has yet to store or to publish, other than
      those `stored`. */
  predicate Outstanding<K, C, V(==), E, P>(pc: PC<K, C, V, E, P>, stored: set<V>) {
    match pc
    case PutClock(_, v) => v !in stored
    case PutWrite(_, v, _) => v !in stored
    case Leading(_, _, _, _, _, Computing(_)) => true
    case Leading(_, _, _, _, _, SetClock(_, v)) => v !in stored
    case Leading(_, _, _, _, _, SetWrite(_, v, _)) => v !in stored
    case Leading(_, _, _, _, _, Publishing(Ok(v))) => v !in stored
    case Leading(_, _, _, _, _, Unregistering(Ok(v))) => v !in stored
    case _ => false
  }

  ghost predicate NothingOutstanding<K, C, V, E, P>(s: World<K, C, V, E, P>, k: K) {
    forall t | t in s.threads && s.threads[t].key == k :: !Outstanding(s.threads[t], StoredAt(s.store, k))
  }

  // ---------- nothing outstanding: only new values are served ----------

  ghost function Among<K, C, V>(good: set<V>): Spec<K, C, V> {
    Spec((k, v) => v in good, (k, fn) => true, true)
  }

  /** A flight of `s0` that nobody can join any more. */
  predicate Over<K, C, V, E, P>(s0: World<K, C, V, E, P>, k: K, f: nat) {
    f < |s0.table.flights| && !(k in s0.table.registered && s0.table.registered[k] == f)
  }

  /** A thread that `s0` had already may return an older value, but must not pass it on. */
  ghost predicate ThreadRenewed<K, C, V, E, P>(spec: Spec<K, C, V>, s0: World<K, C, V, E, P>, k: K, t: Tid,
                                               pc: PC<K, C, V, E, P>) {
    if t !in s0.threads then GoodThread(spec, pc) && (pc.Waiting? || pc.Leading? ==> !Over(s0, k, pc.flight))
    else
      match pc
      case Leading(_, _, f, _, _, stage) => !Over(s0, k, f) ==> GoodStage(spec, k, stage)
      case PutClock(_, _) => GoodThread(spec, pc)
      case PutWrite(_, _, _) => GoodThread(spec, pc)
      case _ => true
  }

  ghost predicate ThreadsRenewed<K, C, V, E, P>(spec: Spec<K, C, V>, s0: World<K, C, V, E, P>, k: K,
                                                s: World<K, C, V, E, P>) {
    && (forall t | t in s0.threads :: t in s.threads && s.threads[t].key == s0.threads[t].key)
    && (forall t | t in s.threads && s.threads[t].key == k :: ThreadRenewed(spec, s0, k, t, s.threads[t]))
  }

  ghost predicate TableRenewed<K, C, V, E, P>(spec: Spec<K, C, V>, s0: World<K, C, V, E, P>, k: K,
                                              table: Table<K, V, E, P>) {
    && |s0.table.flights| <= |table.flights|
    && (k in table.registered ==> !Over(s0, k, table.registered[k]))
    && (forall f | 0 <= f < |table.flights| && table.flights[f].key == k && !Over(s0, k, f) ::
          GoodFlight(spec, table.flights[f]))
  }

  ghost predicate Renewed<K, C, V, E, P>(spec: Spec<K, C, V>, s0: World<K, C, V, E, P>, k: K, s: World<K, C, V, E, P>) {
    && (k in s.store ==> spec.good(k, s.store[k].value))
    && TableRenewed(spec, s0, k, s.table)
    && ThreadsRenewed(spec, s0, k, s)
  }

  lemma RenewedAtFirst<K, C, V, E, P>(s: World<K, C, V, E, P>, k: K)
    requires Safe(s) && NothingOutstanding(s, k)
    ensures Renewed(Among<K, C, V>(StoredAt(s.store, k)), s, k, s)
  {
    var spec := Among<K, C, V>(StoredAt(s.store, k));
    forall t | t in s.threads && s.threads[t].key == k ensures ThreadRenewed(spec, s, k, t, s.threads[t]) {
      assert ThreadOk(s, t);
      if s.threads[t].Leading? && !Over(s, k, s.threads[t].flight) {
        assert RegisteredOk(s, k);
      }
    }
    forall f | 0 <= f < |s.table.flights| && s.table.flights[f].key == k && !Over(s, k, f)
      ensures GoodFlight(spec, s.table.flights[f])
    {
      assert RegisteredOk(s, k);
    }
  }

  /** What is good stays good when more is. */
  lemma RenewedMore<K, C, V, E, P>(good: set<V>, more: set<V>, s0: World<K, C, V, E, P>, k: K, s: World<K, C, V, E, P>)
    requires Renewed(Among<K, C, V>(good), s0, k, s) && good <= more
    ensures Renewed(Among<K, C, V>(more), s0, k, s)
  {
    forall t | t in s.threads && s.threads[t].key == k
      ensures ThreadRenewed(Among<K, C, V>(more), s0, k, t, s.threads[t])
    {
      assert ThreadRenewed(Among<K, C, V>(good), s0, k, t, s.threads[t]);
    }
    forall f | 0 <= f < |s.table.flights| && s.table.flights[f].key == k && !Over(s0, k, f)
      ensures GoodFlight(Among<K, C, V>(more), s.table.flights[f])
    {
      assert GoodFlight(Among<K, C, V>(good), s.table.flights[f]);
    }
  }

  /** One thread moves on. */
  lemma RenewedGoto<K, C, V, E, P>(spec: Spec<K, C, V>, s0: World<K, C, V, E, P>, k: K, s: World<K, C, V, E, P>,
                                   t: Tid, pc: PC<K, C, V, E, P>)
    requires ThreadsRenewed(spec, s0, k, s)
    requires t in s.threads ==> pc.key == s.threads[t].key
    requires pc.key == k ==> ThreadRenewed(spec, s0, k, t, pc)
    ensures ThreadsRenewed(spec, s0, k, Goto(s, t, pc))
  {
    hide ThreadRenewed;
  }

  /** What a leader of the key that is not yet releasing holds is good. */
  lemma StageRenewed<K, C, V, E, P>(spec: Spec<K, C, V>, s0: World<K, C, V, E, P>, k: K, s: World<K, C, V, E, P>,
                                    t: Tid)
    requires Renewed(spec, s0, k, s) && t in s.threads && ThreadOk(s, t)
    requires s.threads[t].key == k && s.threads[t].Leading? && !s.threads[t].stage.Releasing?
    ensures !Over(s0, k, s.threads[t].flight) && GoodStage(spec, k, s.threads[t].stage)
  {
    assert ThreadRenewed(spec, s0, k, t, s.threads[t]);
  }

  lemma LocalRenewed<K, C, V, E, P>(spec: Spec<K, C, V>, c: Config, s0: World<K, C, V, E, P>, k: K,
                                    s: World<K, C, V, E, P>, t: Tid, x: Choice<V, E, P>)
    requires Renewed(spec, s0, k, s) && Safe(s) && spec.failures && (forall fn :: spec.fits(k, fn))
    requires t in s.threads && s.threads[t].key == k && Local(c, s, s.threads[t], x).Some?
    requires x.Yields? && x.outcome.Ok? && (s.threads[t].Leading? || t !in s0.threads) ==>
               spec.good(k, x.outcome.value)
    ensures var pc := Local(c, s, s.threads[t], x).value; pc.key == k && ThreadRenewed(spec, s0, k, t, pc)
  {
    var pc := s.threads[t];
    assert ThreadOk(s, t) && ThreadRenewed(spec, s0, k, t, pc);
    hide Safe;
    if t !in s0.threads {
      LocalShape(c, s, pc, x);
      GoodLocal(spec, c, s, pc, x);
      hide Local;
    } else if pc.Leading? {
      GoodStageStep(spec, c, s.clock, s.store, k, pc.background, pc.stage, x);
    }
  }

  /** Starting a flight keeps the table renewed: nobody is in it yet, and it is not over. */
  lemma StartRenewed<K, C, V, E, P>(spec: Spec<K, C, V>, s0: World<K, C, V, E, P>, k: K, table: Table<K, V, E, P>,
                                    k': K, leader: Tid)
    requires TableRenewed(spec, s0, k, table)
    ensures TableRenewed(spec, s0, k, Start(table, k', leader)) && !Over(s0, k, |table.flights|)
  {
  }

  lemma PublishRenewed<K, C, V, E, P>(spec: Spec<K, C, V>, s0: World<K, C, V, E, P>, k: K, table: Table<K, V, E, P>,
                                      f: nat, o: Outcome<V, E, P>)
    requires TableRenewed(spec, s0, k, table) && f < |table.flights|
    requires table.flights[f].key == k && !Over(s0, k, f) ==> GoodOutcome(spec, k, o)
    ensures TableRenewed(spec, s0, k, Publish(table, f, o))
  {
  }

  lemma FinishRenewed<K, C, V, E, P>(spec: Spec<K, C, V>, s0: World<K, C, V, E, P>, k: K, table: Table<K, V, E, P>,
                                     f: nat, k': K)
    requires TableRenewed(spec, s0, k, table) && f < |table.flights|
    ensures TableRenewed(spec, s0, k, Unregister(table, k')) && TableRenewed(spec, s0, k, Release(table, f))
  {
    assert forall g | 0 <= g < |table.flights| :: GoodFlight(spec, Release(table, f).flights[g])
                                                  == GoodFlight(spec, table.flights[g]);
  }

  lemma StageTable<K, C, V, E, P>(spec: Spec<K, C, V>, c: Config, s0: World<K, C, V, E, P>, k: K,
                                  s: World<K, C, V, E, P>, t: Tid, pc: PC<K, C, V, E, P>, x: Choice<V, E, P>)
    requires TableRenewed(spec, s0, k, s.table) && pc.Leading? && SharedStage(c, s, t, pc, x).Some?
    requires s.table.flights[pc.flight].key == pc.key
    requires pc.key == k && !pc.stage.Releasing? ==> GoodStage(spec, k, pc.stage)
    ensures TableRenewed(spec, s0, k, SharedStage(c, s, t, pc, x).value.table)
  {
    hide TableRenewed;
    match pc.stage
    case Publishing(o) => PublishRenewed(spec, s0, k, s.table, pc.flight, o);
    case Unregistering(_) => FinishRenewed(spec, s0, k, s.table, pc.flight, pc.key);
    case Releasing(_) => FinishRenewed(spec, s0, k, s.table, pc.flight, pc.key);
    case _ =>
  }

  lemma StageStore<K, C, V, E, P>(spec: Spec<K, C, V>, c: Config, k: K, s: World<K, C, V, E, P>, t: Tid,
                                  pc: PC<K, C, V, E, P>, x: Choice<V, E, P>)
    requires k in s.store ==> spec.good(k, s.store[k].value)
    requires pc.Leading? && SharedStage(c, s, t, pc, x).Some?
    requires pc.key == k && !pc.stage.Releasing? ==> GoodStage(spec, k, pc.stage)
    ensures var store := SharedStage(c, s, t, pc, x).value.store;
            k in store ==> spec.good(k, store[k].value)
  {
  }

  lemma StageThread<K, C, V, E, P>(spec: Spec<K, C, V>, c: Config, s0: World<K, C, V, E, P>, k: K,
                                   s: World<K, C, V, E, P>, t: Tid, pc: PC<K, C, V, E, P>, x: Choice<V, E, P>)
    requires spec.failures && pc.key == k && pc.Leading? && SharedStage(c, s, t, pc, x).Some?
    requires t in s.threads && s.threads[t] == pc && ThreadRenewed(spec, s0, k, t, pc)
    ensures ThreadRenewed(spec, s0, k, t, SharedStage(c, s, t, pc, x).value.threads[t])
  {
    match pc.stage
    case SetWrite(_, _, _) =>
    case Releasing(_) =>
    case _ =>
  }

  lemma StageGoto<K, C, V, E, P>(c: Config, s: World<K, C, V, E, P>, t: Tid, pc: PC<K, C, V, E, P>, x: Choice<V, E, P>)
    requires pc.Leading? && t in s.threads && s.threads[t] == pc && SharedStage(c, s, t, pc, x).Some?
    ensures var s' := SharedStage(c, s, t, pc, x).value;
            t in s'.threads && s'.threads == Goto(s, t, s'.threads[t]).threads && s'.threads[t].key == pc.key
  {
    assert s.threads == s.threads[t := s.threads[t]];
  }

  lemma SharedStageRenewed<K, C, V, E, P>(spec: Spec<K, C, V>, c: Config, s0: World<K, C, V, E, P>, k: K,
                                          s: World<K, C, V, E, P>, t: Tid, x: Choice<V, E, P>)
    requires Renewed(spec, s0, k, s) && spec.failures && t in s.threads && ThreadOk(s, t)
    requires s.threads[t].Leading? && SharedStage(c, s, t, s.threads[t], x).Some?
    ensures Renewed(spec, s0, k, SharedStage(c, s, t, s.threads[t], x).value)
  {
    var pc := s.threads[t];
    var s' := SharedStage(c, s, t, pc, x).value;
    if pc.key == k {
      StageThread(spec, c, s0, k, s, t, pc, x);
      if !pc.stage.Releasing? {
        StageRenewed(spec, s0, k, s, t);
      }
    }
    StageTable(spec, c, s0, k, s, t, pc, x);
    StageStore(spec, c, k, s, t, pc, x);
    StageGoto(c, s, t, pc, x);
    hide TableRenewed, ThreadsRenewed, ThreadRenewed, GoodStage, SharedStage, ThreadOk;
    RenewedGoto(spec, s0, k, s, t, s'.threads[t]);
  }

  lemma SpawnRenewed<K, C, V, E, P>(spec: Spec<K, C, V>, c: Config, s0: World<K, C, V, E, P>, k: K,
                                    s: World<K, C, V, E, P>, t: Tid, x: Choice<V, E, P>)
    requires Renewed(spec, s0, k, s) && spec.failures && (forall fn :: spec.fits(k, fn))
    requires t in s.threads && s.threads[t].AtRefresh? && Shared(c, s, t, s.threads[t], x).Some?
    ensures Renewed(spec, s0, k, Shared(c, s, t, s.threads[t], x).value)
  {
    var pc := s.threads[t];
    var f := |s.table.flights|;
    var done, lead := Done(pc.key, Ok(pc.value), StaleHit), Leading(pc.key, pc.fn, f, None, true, Begin);
    StartRenewed(spec, s0, k, s.table, pc.key, x.child);
    if pc.key == k {
      assert ThreadRenewed(spec, s0, k, t, pc);
      assert ThreadRenewed(spec, s0, k, t, done) && ThreadRenewed(spec, s0, k, x.child, lead);
    }
    hide ThreadRenewed, TableRenewed;
    RenewedGoto(spec, s0, k, s, t, done);
    RenewedGoto(spec, s0, k, Goto(s, t, done), x.child, lead);
    hide ThreadsRenewed;
  }

  lemma SharedRenewed<K, C, V, E, P>(spec: Spec<K, C, V>, c: Config, s0: World<K, C, V, E, P>, k: K,
                                     s: World<K, C, V, E, P>, t: Tid, x: Choice<V, E, P>)
    requires Renewed(spec, s0, k, s) && spec.failures && (forall fn :: spec.fits(k, fn))
    requires t in s.threads && ThreadOk(s, t) && Shared(c, s, t, s.threads[t], x).Some?
    ensures Renewed(spec, s0, k, Shared(c, s, t, s.threads[t], x).value)
  {
    var pc := s.threads[t];
    var s' := Shared(c, s, t, pc, x).value;
    if pc.Leading? {
      hide Renewed;
      SharedStageRenewed(spec, c, s0, k, s, t, x);
    } else if pc.AtRefresh? {
      hide Renewed;
      SpawnRenewed(spec, c, s0, k, s, t, x);
    } else {
      StartRenewed(spec, s0, k, s.table, pc.key, t);
      assert pc.key == k ==> ThreadRenewed(spec, s0, k, t, pc) && ThreadRenewed(spec, s0, k, t, s'.threads[t]);
      hide TableRenewed, ThreadRenewed;
      RenewedGoto(spec, s0, k, s, t, s'.threads[t]);
      hide ThreadsRenewed;
    }
  }

  lemma LocalKey<K, C, V, E, P>(c: Config, s: World<K, C, V, E, P>, pc: PC<K, C, V, E, P>, x: Choice<V, E, P>)
    requires Local(c, s, pc, x).Some?
    ensures Local(c, s, pc, x).value.key == pc.key
  {
  }

  lemma LocalStepRenewed<K, C, V, E, P>(spec: Spec<K, C, V>, c: Config, s0: World<K, C, V, E, P>, k: K,
                                        s: World<K, C, V, E, P>, t: Tid, x: Choice<V, E, P>)
    requires Renewed(spec, s0, k, s) && Safe(s) && spec.failures && (forall fn :: spec.fits(k, fn))
    requires t in s.threads && Local(c, s, s.threads[t], x).Some?
    requires t in s0.threads && s0.threads[t].key == k ==> !Underway(s0, t)
    requires forall v | v in MadeBy(s0, s, Step(t, x), k) :: spec.good(k, v)
    ensures Renewed(spec, s0, k, Goto(s, t, Local(c, s, s.threads[t], x).value))
  {
    var pc := s.threads[t];
    LocalKey(c, s, pc, x);
    if pc.key == k {
      LocalRenewed(spec, c, s0, k, s, t, x);
    }
    hide Local, Safe, ThreadRenewed, TableRenewed;
    RenewedGoto(spec, s0, k, s, t, Local(c, s, pc, x).value);
  }

  lemma ThreadStepRenewed<K, C, V, E, P>(good: set<V>, c: Config, s0: World<K, C, V, E, P>, k: K,
                                         s: World<K, C, V, E, P>, t: Tid, x: Choice<V, E, P>)
    requires NothingOutstanding(s0, k) && Renewed(Among<K, C, V>(good), s0, k, s) && Safe(s)
    requires t in s.threads && StepThread(c, s, t, x).Some? && MadeBy(s0, s, Step(t, x), k) <= good
    ensures Renewed(Among<K, C, V>(good), s0, k, StepThread(c, s, t, x).value)
  {
    var spec := Among<K, C, V>(good);
    hide Local, Shared, Renewed;
    if Local(c, s, s.threads[t], x).Some? {
      hide Safe;
      assert t in s0.threads && s0.threads[t].key == k ==> !Underway(s0, t);
      LocalStepRenewed(spec, c, s0, k, s, t, x);
    } else {
      assert ThreadOk(s, t);
      SharedRenewed(spec, c, s0, k, s, t, x);
    }
  }

  lemma StepRenewed<K, C, V, E, P>(good: set<V>, c: Config, s0: World<K, C, V, E, P>, k: K, s: World<K, C, V, E, P>,
                                   a: Action<K, C, V, E, P>)
    requires NothingOutstanding(s0, k) && Renewed(Among<K, C, V>(good), s0, k, s) && Safe(s)
    requires Apply(c, s, a).Some? && MadeBy(s0, s, a, k) <= good
    ensures Renewed(Among<K, C, V>(good), s0, k, Apply(c, s, a).value)
  {
    var spec := Among<K, C, V>(good);
    var s' := Apply(c, s, a).value;
    hide Safe, StepThread, NothingOutstanding, TableRenewed;
    if a.Step? {
      hide Renewed, MadeBy;
      ThreadStepRenewed(good, c, s0, k, s, a.t, a.choice);
    } else if !a.Tick? && !a.Remove? {
      RenewedGoto(spec, s0, k, s, a.t, s'.threads[a.t]);
    }
  }

  lemma {:induction false} ExecRenewed<K, C, V, E, P>(c: Config, s: World<K, C, V, E, P>,
                                                      actions: seq<Action<K, C, V, E, P>>, k: K)
    requires Safe(s) && NothingOutstanding(s, k) && Exec(c, s, actions).Some?
    ensures Renewed(Among<K, C, V>(StoredAt(s.store, k) + Made(c, s, actions, k)), s, k, Exec(c, s, actions).value)
  {
    if actions == [] {
      RenewedAtFirst(s, k);
      assert StoredAt(s.store, k) + {} == StoredAt(s.store, k);
    } else {
      var n := |actions| - 1;
      var m := Exec(c, s, actions[..n]).value;
      ExecRenewed(c, s, actions[..n], k);
      ExecEvolves(c, s, actions[..n]);
      hide NothingOutstanding, Renewed, Safe, Apply, MadeBy;
      var good := StoredAt(s.store, k) + Made(c, s, actions, k);
      RenewedMore(StoredAt(s.store, k) + Made(c, s, actions[..n], k), good, s, k, m);
      StepRenewed(good, c, s, k, m, actions[n]);
    }
  }

  /** Every call for the key that began after `s` and has been served was served one of the values. */
  ghost predicate ServesOnly<K, C, V, E, P>(s: World<K, C, V, E, P>, k: K, s': World<K, C, V, E, P>, values: set<V>) {
    forall t | t in s'.threads && t !in s.threads && s'.threads[t].key == k && Served(s'.threads[t]).Some? ::
      Served(s'.threads[t]).value in values
  }

  /** When nothing is outstanding for the key, every value that a call begun afterwards is served, by
      whichever way, is the stored one or was set, or began to be computed, afterwards. */
  lemma ServesOnlyNew<K, C, V, E, P>(c: Config, s: World<K, C, V, E, P>, actions: seq<Action<K, C, V, E, P>>, k: K)
    requires Safe(s) && NothingOutstanding(s, k) && Exec(c, s, actions).Some?
    ensures ServesOnly(s, k, Exec(c, s, actions).value, StoredAt(s.store, k) + Made(c, s, actions, k))
  {
    ExecRenewed(c, s, actions, k);
    var spec := Among<K, C, V>(StoredAt(s.store, k) + Made(c, s, actions, k));
    var s' := Exec(c, s, actions).value;
    forall t | t in s'.threads && t !in s.threads && s'.threads[t].key == k && Served(s'.threads[t]).Some?
      ensures spec.good(k, Served(s'.threads[t]).value)
    {
      assert ThreadRenewed(spec, s, k, t, s'.threads[t]);
    }
  }
}
