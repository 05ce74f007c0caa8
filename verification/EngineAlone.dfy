/** Every run on which one call has its key to itself, whatever happens to other keys and however the
    clock moves meanwhile, gives the result and the effect that the sequential cache gives for the
    clock readings of that run. */
module EngineAlone {
  import opened Envelope
  import opened Flights
  import opened Engine
  import opened CacheSpec
  import Progress = EngineProgress

  /** The call, by thread t, of a function that ends with `o`; the refresh that it may start is u.
      Other threads act on other keys only. The store does not fail for t and u. */
  predicate AloneAction<K(==), C(==), V(==), E(==), P(==)>(
      t: Tid, u: Tid, k: K, fn: C, o: Outcome<V, E, P>, a: Action<K, C, V, E, P>) {
    match a
    case Call(v, k', fn') => if v == t then k' == k && fn' == fn else v != u && k' != k
    case CallGet(v, k') => v != t && v != u && k' != k
    case CallSet(v, k', _) => v != t && v != u && k' != k
    case Tick(_) => true
    case Remove(keys) => k !in keys
    case Step(v, x) =>
      if v == t || v == u then x == Go || x == Spawns(u) || x == Yields(o)
      else !(x.Spawns? && (x.child == t || x.child == u))
  }

  ghost predicate AloneRun<K, C, V, E, P>(t: Tid, u: Tid, k: K, fn: C, o: Outcome<V, E, P>,
                                          actions: seq<Action<K, C, V, E, P>>) {
    forall i | 0 <= i < |actions| :: AloneAction(t, u, k, fn, o, actions[i])
  }

  /** Threads other than t and u that are about the key have returned. */
  predicate OthersElsewhere<K(==), C, V, E, P>(s: World<K, C, V, E, P>, t: Tid, u: Tid, k: K) {
    forall v | v in s.threads && v != t && v != u && s.threads[v].key == k :: Progress.Returned(s.threads[v])
  }

  /** Nobody uses the key, and neither thread is there yet. */
  predicate Unused<K(==), C, V, E, P>(s: World<K, C, V, E, P>, t: Tid, u: Tid, k: K) {
    && t != u && t !in s.threads && u !in s.threads && k !in s.table.registered
    && OthersElsewhere(s, t, u, k)
  }

  // ---------- where the call can be ----------

  /** The two stores agree on the key. */
  predicate SameAt<K(==), V(==)>(k: K, a: map<K, Stored<V>>, b: map<K, Stored<V>>) {
    if k in a then k in b && a[k] == b[k] else k !in b
  }

  /** What led the call to compute: nothing stored, or an expired entry. */
  predicate Falls<K(==), V(==), E, P>(c: Config, m: map<K, Stored<V>>, k: K, env: Env<V, E, P>, fallback: Option<V>) {
    if k !in m then fallback == None
    else State(m[k], env.now) == Expired && fallback == if c.keepStale then Some(m[k].value) else None
  }

  predicate StaleRead<K(==), V(==), E, P>(m: map<K, Stored<V>>, k: K, env: Env<V, E, P>, v: V) {
    k in m && State(m[k], env.now) == Stale && v == m[k].value
  }

  predicate Reading<K(==), C, V(==), E, P>(c: Config, m: map<K, Stored<V>>, k: K, env: Env<V, E, P>,
                                           pc: PC<K, C, V, E, P>) {
    pc.key == k &&
    match pc
    case AtBypass(_, _) => c.bypass
    case AtClock(_, _) => !c.bypass
    case AtFresh(_, _, now) => !c.bypass && now == env.now
    case AtLookup(_, _, now) => !c.bypass && now == env.now
    case AtEntry(_, _, now) => !c.bypass && now == env.now
    case AtRefresh(_, _, v) => !c.bypass && StaleRead(m, k, env, v)
    case AtDo(_, _, fallback) => !c.bypass && Falls(c, m, k, env, fallback)
    case _ => false
  }

  /** What a leader makes of the store, and the outcome it publishes. */
  function Led<K(==), V, E, P>(c: Config, m: map<K, Stored<V>>, k: K, env: Env<V, E, P>, background: bool)
    : (map<K, Stored<V>>, Outcome<V, E, P>)
  {
    if background then PlainRefill(c, m, k, env) else PlainRecompute(c, m, k, env)
  }

  predicate Concluded<K(==), V(==), E(==), P(==)>(c: Config, m: map<K, Stored<V>>, store: map<K, Stored<V>>, k: K,
                                                  env: Env<V, E, P>, background: bool, o: Outcome<V, E, P>) {
    SameAt(k, store, Led(c, m, k, env, background).0) && o == Led(c, m, k, env, background).1
  }

  predicate StageAlone<K(==), V(==), E(==), P(==)>(c: Config, m: map<K, Stored<V>>, store: map<K, Stored<V>>, k: K,
                                                   env: Env<V, E, P>, background: bool, stage: Stage<V, E, P>) {
    match stage
    case RecheckClock => SameAt(k, store, m) && !background
    case RecheckFresh(now) => SameAt(k, store, m) && !background && now == env.inner
    case RecheckEntry(now) => SameAt(k, store, m) && !background && now == env.inner
    case Publishing(o) => Concluded(c, m, store, k, env, background, o)
    case Unregistering(o) => Concluded(c, m, store, k, env, background, o)
    case Releasing(o) => Concluded(c, m, store, k, env, background, o)
    case _ =>
      && SameAt(k, store, m) && (!background ==> !FreshAt(m, k, env.inner))
      && (stage.SetClock? ==> env.outcome == Ok(stage.value))
      && (stage.SetWrite? ==> env.outcome == Ok(stage.value) && stage.now == env.written)
  }

  /** A call that has returned, with what it or its refresh has still to do. */
  predicate CallReturned<K(==), C, V(==), E(==), P(==)>(
      c: Config, m: map<K, Stored<V>>, s: World<K, C, V, E, P>, t: Tid, u: Tid, k: K, env: Env<V, E, P>)
    requires t in s.threads && s.threads[t].Done?
  {
    var r := s.threads[t].result;
    if u !in s.threads then SameAt(k, s.store, PlainCall(c, m, k, env).0) && r == PlainCall(c, m, k, env).1
    else
      && !c.bypass && r.Ok? && StaleRead(m, k, env, r.value)
      && (if s.threads[u].Leading? then
            var pc := s.threads[u];
            pc.key == k && pc.background && StageAlone(c, m, s.store, k, env, true, pc.stage)
          else s.threads[u].Done? && SameAt(k, s.store, PlainRefill(c, m, k, env).0))
  }

  ghost predicate Alone<K, C, V, E, P>(c: Config, m: map<K, Stored<V>>, s: World<K, C, V, E, P>, t: Tid, u: Tid, k: K,
                                       env: Env<V, E, P>) {
    && OthersElsewhere(s, t, u, k)
    && if t !in s.threads then u !in s.threads && SameAt(k, s.store, m) && k !in s.table.registered
       else if s.threads[t].Done? then s.threads[t].key == k && CallReturned(c, m, s, t, u, k, env)
       else if s.threads[t].Leading? then
         var pc := s.threads[t];
         && u !in s.threads && !c.bypass && pc.key == k && !pc.background
         && Falls(c, m, k, env, pc.fallback) && StageAlone(c, m, s.store, k, env, false, pc.stage)
       else
         && u !in s.threads && SameAt(k, s.store, m) && k !in s.table.registered
         && Reading(c, m, k, env, s.threads[t])
  }

  // ---------- steps of the call ----------

  /** The clock readings after a step of the call or of its refresh. */
  function Observe<K, C, V, E, P>(s: World<K, C, V, E, P>, t: Tid, u: Tid, a: Action<K, C, V, E, P>, env: Env<V, E, P>)
    : Env<V, E, P>
  {
    if !a.Step? || (a.t != t && a.t != u) || a.t !in s.threads then env
    else
      match s.threads[a.t]
      case AtClock(_, _) => env.(now := s.clock, inner := s.clock, written := s.clock)
      case Leading(_, _, _, _, _, RecheckClock) => env.(inner := s.clock, written := s.clock)
      case Leading(_, _, _, _, _, SetClock(_, _)) => env.(written := s.clock)
      case _ => env
  }

  lemma ReadingLocal<K, C, V, E, P>(c: Config, m: map<K, Stored<V>>, s: World<K, C, V, E, P>, t: Tid, u: Tid, k: K,
                                    fn: C, env: Env<V, E, P>, x: Choice<V, E, P>)
    requires t != u && AloneAction(t, u, k, fn, env.outcome, Step(t, x))
    requires t in s.threads && Alone(c, m, s, t, u, k, env) && !s.threads[t].Done? && !s.threads[t].Leading?
    requires Local(c, s, s.threads[t], x).Some?
    ensures Alone(c, m, Goto(s, t, Local(c, s, s.threads[t], x).value), t, u, k, Observe(s, t, u, Step(t, x), env))
  {
  }

  lemma ReadingShared<K, C, V, E, P>(c: Config, m: map<K, Stored<V>>, s: World<K, C, V, E, P>, t: Tid, u: Tid, k: K,
                                     fn: C, env: Env<V, E, P>, x: Choice<V, E, P>)
    requires t != u && AloneAction(t, u, k, fn, env.outcome, Step(t, x))
    requires t in s.threads && Alone(c, m, s, t, u, k, env) && !s.threads[t].Done? && !s.threads[t].Leading?
    requires Shared(c, s, t, s.threads[t], x).Some?
    ensures Alone(c, m, Shared(c, s, t, s.threads[t], x).value, t, u, k, env)
  {
  }

  /** A leader's step, foreground or background. */
  lemma StageStep<K, V, E, P>(c: Config, clock: Time, m: map<K, Stored<V>>, store: map<K, Stored<V>>, k: K,
                              env: Env<V, E, P>, background: bool, stage: Stage<V, E, P>, x: Choice<V, E, P>)
    requires StageAlone(c, m, store, k, env, background, stage) && (x.Go? || x == Yields(env.outcome))
    requires LocalStage(c, clock, store, k, background, stage, x).Some?
    ensures var env' := if stage.RecheckClock? then env.(inner := clock, written := clock)
                        else if stage.SetClock? then env.(written := clock) else env;
            StageAlone(c, m, store, k, env', background, LocalStage(c, clock, store, k, background, stage, x).value)
  {
  }

  lemma LocalLeaderStep<K, C, V, E, P>(c: Config, m: map<K, Stored<V>>, s: World<K, C, V, E, P>, t: Tid, u: Tid, k: K,
                                       fn: C, env: Env<V, E, P>, v: Tid, x: Choice<V, E, P>)
    requires t != u && AloneAction(t, u, k, fn, env.outcome, Step(v, x)) && Alone(c, m, s, t, u, k, env)
    requires (v == t || v == u) && v in s.threads && s.threads[v].Leading? && t in s.threads
    requires Local(c, s, s.threads[v], x).Some?
    ensures Alone(c, m, Goto(s, v, Local(c, s, s.threads[v], x).value), t, u, k, Observe(s, t, u, Step(v, x), env))
  {
    var pc := s.threads[v];
    assert x.Go? || x == Yields(env.outcome);
    assert StageAlone(c, m, s.store, k, env, pc.background, pc.stage) && pc.key == k;
    StageStep(c, s.clock, m, s.store, k, env, pc.background, pc.stage, x);
    hide LocalStage, StageAlone;
  }

  /** The write of the computed value. */
  lemma WriteStep<K, V, E, P>(c: Config, m: map<K, Stored<V>>, store: map<K, Stored<V>>, k: K, env: Env<V, E, P>,
                              background: bool, stage: Stage<V, E, P>)
    requires StageAlone(c, m, store, k, env, background, stage) && stage.SetWrite?
    ensures var written := store[k := Seal(c.policy, stage.value, stage.now)];
            StageAlone(c, m, written, k, env, background, Publishing(Ok(stage.value)))
  {
  }

  lemma SharedLeaderStep<K, C, V, E, P>(c: Config, m: map<K, Stored<V>>, s: World<K, C, V, E, P>, t: Tid, u: Tid,
                                        k: K, fn: C, env: Env<V, E, P>, v: Tid, x: Choice<V, E, P>)
    requires t != u && AloneAction(t, u, k, fn, env.outcome, Step(v, x)) && Alone(c, m, s, t, u, k, env)
    requires (v == t || v == u) && v in s.threads && s.threads[v].Leading? && t in s.threads
    requires SharedStage(c, s, v, s.threads[v], x).Some?
    ensures Alone(c, m, SharedStage(c, s, v, s.threads[v], x).value, t, u, k, env)
  {
    var pc := s.threads[v];
    assert x.Go? || x == Yields(env.outcome);
    assert StageAlone(c, m, s.store, k, env, pc.background, pc.stage) && pc.key == k;
    if pc.stage.SetWrite? {
      WriteStep(c, m, s.store, k, env, pc.background, pc.stage);
      hide StageAlone;
    }
  }

  // ---------- steps of others ----------

  /** What others leave as it is. */
  ghost predicate Undisturbed<K, C, V, E, P>(s: World<K, C, V, E, P>, s': World<K, C, V, E, P>, t: Tid, u: Tid, k: K) {
    && OthersElsewhere(s', t, u, k) && SameAt(k, s'.store, s.store)
    && (k !in s.table.registered ==> k !in s'.table.registered)
    && (t in s'.threads <==> t in s.threads) && (t in s.threads ==> s'.threads[t] == s.threads[t])
    && (u in s'.threads <==> u in s.threads) && (u in s.threads ==> s'.threads[u] == s.threads[u])
  }

  lemma OthersShared<K, C, V, E, P>(c: Config, s: World<K, C, V, E, P>, t: Tid, u: Tid, k: K, v: Tid,
                                    x: Choice<V, E, P>)
    requires OthersElsewhere(s, t, u, k) && v in s.threads && v != t && v != u
    requires !(x.Spawns? && (x.child == t || x.child == u)) && Shared(c, s, v, s.threads[v], x).Some?
    ensures Undisturbed(s, Shared(c, s, v, s.threads[v], x).value, t, u, k)
  {
    if s.threads[v].Leading? {
      OthersStage(c, s, t, u, k, v, x);
      hide SharedStage, Undisturbed;
    }
  }

  lemma OthersStage<K, C, V, E, P>(c: Config, s: World<K, C, V, E, P>, t: Tid, u: Tid, k: K, v: Tid, x: Choice<V, E, P>)
    requires OthersElsewhere(s, t, u, k) && v in s.threads && v != t && v != u
    requires s.threads[v].Leading? && SharedStage(c, s, v, s.threads[v], x).Some?
    ensures Undisturbed(s, SharedStage(c, s, v, s.threads[v], x).value, t, u, k)
  {
  }

  lemma OthersLocal<K, C, V, E, P>(c: Config, s: World<K, C, V, E, P>, t: Tid, u: Tid, k: K, v: Tid, x: Choice<V, E, P>)
    requires OthersElsewhere(s, t, u, k) && v in s.threads && v != t && v != u
    requires Local(c, s, s.threads[v], x).Some?
    ensures Undisturbed(s, Goto(s, v, Local(c, s, s.threads[v], x).value), t, u, k)
  {
    KeyKept(c, s, s.threads[v], x);
    hide Local;
  }

  lemma KeyKept<K, C, V, E, P>(c: Config, s: World<K, C, V, E, P>, pc: PC<K, C, V, E, P>, x: Choice<V, E, P>)
    requires Local(c, s, pc, x).Some?
    ensures Local(c, s, pc, x).value.key == pc.key && !Progress.Returned(pc)
  {
  }

  lemma OthersStep<K, C, V, E, P>(c: Config, s: World<K, C, V, E, P>, t: Tid, u: Tid, k: K, fn: C,
                                  o: Outcome<V, E, P>, a: Action<K, C, V, E, P>)
    requires OthersElsewhere(s, t, u, k) && AloneAction(t, u, k, fn, o, a) && Apply(c, s, a).Some?
    requires !(a.Call? && a.t == t) && !(a.Step? && (a.t == t || a.t == u))
    ensures Undisturbed(s, Apply(c, s, a).value, t, u, k)
  {
    if a.Step? {
      if Local(c, s, s.threads[a.t], a.choice).Some? {
        OthersLocal(c, s, t, u, k, a.t, a.choice);
      } else {
        hide Local;
        OthersShared(c, s, t, u, k, a.t, a.choice);
      }
    }
  }

  lemma UndisturbedAlone<K, C, V, E, P>(c: Config, m: map<K, Stored<V>>, s: World<K, C, V, E, P>,
                                        s': World<K, C, V, E, P>, t: Tid, u: Tid, k: K, env: Env<V, E, P>)
    requires Undisturbed(s, s', t, u, k) && Alone(c, m, s, t, u, k, env)
    ensures Alone(c, m, s', t, u, k, env)
  {
  }

  // ---------- every step ----------

  lemma AloneStep<K, C, V, E, P>(c: Config, m: map<K, Stored<V>>, s: World<K, C, V, E, P>, t: Tid, u: Tid, k: K,
                                 fn: C, env: Env<V, E, P>, a: Action<K, C, V, E, P>)
    requires t != u && AloneAction(t, u, k, fn, env.outcome, a) && Apply(c, s, a).Some?
    requires Alone(c, m, s, t, u, k, env)
    ensures Alone(c, m, Apply(c, s, a).value, t, u, k, Observe(s, t, u, a, env))
  {
    if a.Step? && (a.t == t || a.t == u) {
      if s.threads[a.t].Leading? {
        if Local(c, s, s.threads[a.t], a.choice).Some? {
          LocalLeaderStep(c, m, s, t, u, k, fn, env, a.t, a.choice);
        } else {
          hide Local;
          SharedLeaderStep(c, m, s, t, u, k, fn, env, a.t, a.choice);
        }
      } else if a.t == t {
        if Local(c, s, s.threads[t], a.choice).Some? {
          ReadingLocal(c, m, s, t, u, k, fn, env, a.choice);
        } else {
          hide Local;
          ReadingShared(c, m, s, t, u, k, fn, env, a.choice);
        }
      }
    } else if !(a.Call? && a.t == t) {
      OthersStep(c, s, t, u, k, fn, env.outcome, a);
      hide Apply, Alone;
      UndisturbedAlone(c, m, s, Apply(c, s, a).value, t, u, k, env);
    }
  }

  // ---------- every run ----------

  /** The clock after the first i actions. */
  function ClockAt<K, C, V, E, P>(c: Config, s: World<K, C, V, E, P>, actions: seq<Action<K, C, V, E, P>>, i: nat): Time
    requires i <= |actions|
  {
    match Exec(c, s, actions[..i])
    case None => ZERO_TIME
    case Some(m) => m.clock
  }

  /** The three readings are the clock at three moments of the run, in this order. */
  ghost predicate ReadDuring<K, C, V, E, P>(c: Config, s: World<K, C, V, E, P>, actions: seq<Action<K, C, V, E, P>>,
                                            env: Env<V, E, P>, i: nat, j: nat, l: nat) {
    && i <= j <= l <= |actions|
    && env.now == ClockAt(c, s, actions, i)
    && env.inner == ClockAt(c, s, actions, j)
    && env.written == ClockAt(c, s, actions, l)
  }

  lemma ReadLonger<K, C, V, E, P>(c: Config, s: World<K, C, V, E, P>, actions: seq<Action<K, C, V, E, P>>, n: nat,
                                  env: Env<V, E, P>, i: nat, j: nat, l: nat)
    requires n <= |actions| && ReadDuring(c, s, actions[..n], env, i, j, l)
    ensures ReadDuring(c, s, actions, env, i, j, l)
  {
    hide Exec;
    assert actions[..n][..i] == actions[..i] && actions[..n][..j] == actions[..j] && actions[..n][..l] == actions[..l];
  }

  lemma {:induction false} AloneExec<K, C, V, E, P>(c: Config, s: World<K, C, V, E, P>, t: Tid, u: Tid, k: K, fn: C,
                                                    o: Outcome<V, E, P>, actions: seq<Action<K, C, V, E, P>>)
    returns (env: Env<V, E, P>, i: nat, j: nat, l: nat)
    requires Unused(s, t, u, k) && AloneRun(t, u, k, fn, o, actions) && Exec(c, s, actions).Some?
    ensures env.outcome == o && ReadDuring(c, s, actions, env, i, j, l)
    ensures Alone(c, s.store, Exec(c, s, actions).value, t, u, k, env)
  {
    if actions == [] {
      env, i, j, l := Env(s.clock, s.clock, s.clock, o), 0, 0, 0;
      assert actions[..0] == [];
    } else {
      var n := |actions| - 1;
      var before, a := actions[..n], actions[n];
      var m := Exec(c, s, before).value;
      env, i, j, l := AloneExec(c, s, t, u, k, fn, o, before);
      AloneStep(c, s.store, m, t, u, k, fn, env, a);
      ReadLonger(c, s, actions, n, env, i, j, l);
      hide Alone, AloneAction, Unused, Apply;
      env, i, j, l := ObserveDuring(c, s, actions, m, t, u, env, i, j, l);
    }
  }

  lemma ObserveDuring<K, C, V, E, P>(c: Config, s: World<K, C, V, E, P>, actions: seq<Action<K, C, V, E, P>>,
                                     m: World<K, C, V, E, P>, t: Tid, u: Tid, env: Env<V, E, P>, i: nat, j: nat,
                                     l: nat)
    returns (env': Env<V, E, P>, i': nat, j': nat, l': nat)
    requires actions != [] && Exec(c, s, actions[..|actions| - 1]) == Some(m)
    requires ReadDuring(c, s, actions, env, i, j, l) && i <= j <= l < |actions|
    ensures env' == Observe(m, t, u, actions[|actions| - 1], env) && ReadDuring(c, s, actions, env', i', j', l')
  {
    var n := |actions| - 1;
    env', i', j', l' := Observe(m, t, u, actions[n], env), i, j, l;
    if env' != env {
      var pc := m.threads[actions[n].t];
      l' := n;
      if !(pc.Leading? && pc.stage.SetClock?) {
        j' := n;
        if pc.AtClock? {
          i' := n;
        }
      }
    }
  }

  /** Whenever a call has had its key to itself and has returned, and its refresh, if it started one,
      has ended or panics, then it has returned what the sequential cache returns, and the store holds
      for the key what that leaves, for three clock readings of the run in their order. */
  lemma AloneIsSequential<K, C, V, E, P>(c: Config, s: World<K, C, V, E, P>, t: Tid, u: Tid, k: K, fn: C,
                                         o: Outcome<V, E, P>, actions: seq<Action<K, C, V, E, P>>)
    returns (env: Env<V, E, P>, i: nat, j: nat, l: nat)
    requires Unused(s, t, u, k) && AloneRun(t, u, k, fn, o, actions) && Exec(c, s, actions).Some?
    requires var s' := Exec(c, s, actions).value;
             && t in s'.threads && s'.threads[t].Done?
             && (u in s'.threads ==> s'.threads[u].Done? || o.Panic?)
    ensures env.outcome == o && ReadDuring(c, s, actions, env, i, j, l)
    ensures var s' := Exec(c, s, actions).value;
            && SameAt(k, s'.store, PlainCall(c, s.store, k, env).0)
            && s'.threads[t].result == PlainCall(c, s.store, k, env).1
  {
    env, i, j, l := AloneExec(c, s, t, u, k, fn, o, actions);
  }
}
