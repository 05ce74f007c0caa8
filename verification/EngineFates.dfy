/** How every call comes by its result, on every run: which clock reading, which entry or which failure
    of the store, and which flight it follows from. */
module EngineFates {
  import opened Envelope
  import opened Flights
  import opened Engine
  import opened EngineSafety

  /** The steps of a call that matter, by their positions in the run: the clock reading, the early look
      at the flights, the reading of the store, and the step that joins or starts a flight. */
  datatype Course<V> = Course(clockAt: nat, now: Time, lookupAt: nat, readAt: nat, found: Option<Stored<V>>,
                              joinAt: nat)

  function Find<K, V>(store: map<K, Stored<V>>, k: K): Option<Stored<V>> {
    if k in store then Some(store[k]) else None
  }

  ghost predicate Happens<K, C, V, E, P>(c: Config, s: World<K, C, V, E, P>, actions: seq<Action<K, C, V, E, P>>,
                                         i: nat) {
    i < |actions| && Exec(c, s, actions[..i]).Some?
  }

  /** The state before action i. */
  ghost function Before<K, C, V, E, P>(c: Config, s: World<K, C, V, E, P>, actions: seq<Action<K, C, V, E, P>>, i: nat)
    : World<K, C, V, E, P>
    requires Happens(c, s, actions, i)
  {
    Exec(c, s, actions[..i]).value
  }

  /** Thread t has read the clock. */
  ghost predicate Clocked<K, C, V, E, P>(c: Config, s: World<K, C, V, E, P>, actions: seq<Action<K, C, V, E, P>>,
                                         t: Tid, how: Course<V>) {
    && Happens(c, s, actions, how.clockAt) && actions[how.clockAt] == Step(t, Go)
    && Before(c, s, actions, how.clockAt).clock == how.now
  }

  /** ... and the entry of the key after that. */
  ghost predicate Saw<K, C, V, E, P>(c: Config, s: World<K, C, V, E, P>, actions: seq<Action<K, C, V, E, P>>, t: Tid,
                                     k: K, how: Course<V>) {
    && Clocked(c, s, actions, t, how)
    && Happens(c, s, actions, how.readAt) && actions[how.readAt] == Step(t, Go) && how.clockAt < how.readAt
    && how.found == Find(Before(c, s, actions, how.readAt).store, k)
  }

  /** Does this cache wait for flights before it reads an entry that is not fresh? */
  predicate WaitsEarly(c: Config) {
    c.supportsFresh && c.policy.staleTTL == 0 && !c.keepStale
  }

  /** Where it does, there was no flight for the key. */
  ghost predicate Passed<K, C, V, E, P>(c: Config, s: World<K, C, V, E, P>, actions: seq<Action<K, C, V, E, P>>,
                                        t: Tid, k: K, how: Course<V>) {
    WaitsEarly(c) ==>
      && Happens(c, s, actions, how.lookupAt) && actions[how.lookupAt] == Step(t, Go)
      && how.clockAt < how.lookupAt && k !in Before(c, s, actions, how.lookupAt).table.registered
  }

  predicate Finds<V>(how: Course<V>, state: EntryState) {
    how.found.Some? && State(how.found.value, how.now) == state
  }

  /** Nothing was found, or an expired entry, which is what stale-on-error falls back on. */
  ghost predicate FellThrough<K, C, V, E, P>(c: Config, s: World<K, C, V, E, P>, actions: seq<Action<K, C, V, E, P>>,
                                             t: Tid, k: K, how: Course<V>, fallback: Option<V>) {
    && Saw(c, s, actions, t, k, how) && Passed(c, s, actions, t, k, how)
    && (how.found.None? || Finds(how, Expired))
    && fallback == if how.found.Some? && c.keepStale then Some(how.found.value.value) else None
  }

  ghost predicate SawStale<K, C, V, E, P>(c: Config, s: World<K, C, V, E, P>, actions: seq<Action<K, C, V, E, P>>,
                                          t: Tid, k: K, how: Course<V>, v: V) {
    && Saw(c, s, actions, t, k, how) && Passed(c, s, actions, t, k, how)
    && Finds(how, Stale) && v == how.found.value.value
  }

  /** Nothing fresh was found by a cache that then waits. */
  ghost predicate NotFresh<K, C, V, E, P>(c: Config, s: World<K, C, V, E, P>, actions: seq<Action<K, C, V, E, P>>,
                                          t: Tid, k: K, how: Course<V>) {
    WaitsEarly(c) && Saw(c, s, actions, t, k, how) && !Finds(how, Fresh)
  }

  /** Flight f was the one registered for the key when the call joined it. */
  ghost predicate Joined<K, C, V, E, P>(c: Config, s: World<K, C, V, E, P>, actions: seq<Action<K, C, V, E, P>>,
                                        t: Tid, k: K, how: Course<V>, f: nat) {
    && Happens(c, s, actions, how.joinAt) && actions[how.joinAt] == Step(t, Go) && how.readAt < how.joinAt
    && var registered := Before(c, s, actions, how.joinAt).table.registered;
       k in registered && registered[k] == f
  }

  /** No flight was registered when the call started flight f. */
  ghost predicate Started<K, C, V, E, P>(c: Config, s: World<K, C, V, E, P>, actions: seq<Action<K, C, V, E, P>>,
                                         t: Tid, k: K, how: Course<V>, f: nat) {
    && Happens(c, s, actions, how.joinAt) && actions[how.joinAt] == Step(t, Go) && how.readAt < how.joinAt
    && var table := Before(c, s, actions, how.joinAt).table;
       k !in table.registered && f == |table.flights|
  }

  /** A refresh was started exactly if no flight was registered. */
  ghost predicate RefreshOnce<K, C, V, E, P>(c: Config, s: World<K, C, V, E, P>, actions: seq<Action<K, C, V, E, P>>,
                                             t: Tid, k: K, how: Course<V>) {
    && Happens(c, s, actions, how.joinAt) && how.readAt < how.joinAt
    && actions[how.joinAt].Step? && actions[how.joinAt].t == t
    && if k in Before(c, s, actions, how.joinAt).table.registered then actions[how.joinAt].choice.Go?
       else actions[how.joinAt].choice.Spawns?
  }

  /** Thread t has not run its compute function. */
  ghost predicate NotComputed<K, C, V, E, P>(actions: seq<Action<K, C, V, E, P>>, t: Tid) {
    forall i | 0 <= i < |actions| && actions[i].Step? && actions[i].t == t :: !actions[i].choice.Yields?
  }

  // ---------- calls ----------

  /** Where a call that began in `s` can be after the run. */
  ghost predicate CallExplained<K, C, V, E, P>(c: Config, s: World<K, C, V, E, P>,
                                               actions: seq<Action<K, C, V, E, P>>, t: Tid, k: K, fn: C,
                                               how: Course<V>, pc: PC<K, C, V, E, P>) {
    && pc.key == k && (!pc.Leading? && !pc.Done? ==> NotComputed(actions, t))
    && match pc
       case AtClock(_, g) => !c.bypass && g == fn
       case AtBypass(_, g) => c.bypass && g == fn
       case AtFresh(_, g, now) =>
         !c.bypass && c.supportsFresh && g == fn && now == how.now && Clocked(c, s, actions, t, how)
       case AtLookup(_, g, now) => !c.bypass && g == fn && now == how.now && NotFresh(c, s, actions, t, k, how)
       case AtEntry(_, g, now) =>
         !c.bypass && g == fn && now == how.now && Clocked(c, s, actions, t, how) && Passed(c, s, actions, t, k, how)
       case AtRefresh(_, g, v) => !c.bypass && g == fn && SawStale(c, s, actions, t, k, how, v)
       case AtDo(_, g, fallback) => !c.bypass && g == fn && FellThrough(c, s, actions, t, k, how, fallback)
       case Waiting(_, f, fallback) => !c.bypass && CallJoined(c, s, actions, t, k, how, f, fallback)
       case Leading(_, g, f, fallback, background, _) =>
         !c.bypass && g == fn && !background && CallLeads(c, s, actions, t, k, how, f, fallback)
       case Done(_, r, via) => CallEnded(c, s, actions, t, k, how, r, via)
       case _ => false
  }

  ghost predicate CallJoined<K, C, V, E, P>(c: Config, s: World<K, C, V, E, P>, actions: seq<Action<K, C, V, E, P>>,
                                            t: Tid, k: K, how: Course<V>, f: nat, fallback: Option<V>) {
    && Joined(c, s, actions, t, k, how, f)
    && (FellThrough(c, s, actions, t, k, how, fallback) || (NotFresh(c, s, actions, t, k, how) && fallback == None))
  }

  ghost predicate CallLeads<K, C, V, E, P>(c: Config, s: World<K, C, V, E, P>, actions: seq<Action<K, C, V, E, P>>,
                                           t: Tid, k: K, how: Course<V>, f: nat, fallback: Option<V>) {
    Started(c, s, actions, t, k, how, f) && FellThrough(c, s, actions, t, k, how, fallback)
  }

  /** How a call may have ended, and with what. */
  ghost predicate CallEnded<K, C, V, E, P>(c: Config, s: World<K, C, V, E, P>, actions: seq<Action<K, C, V, E, P>>,
                                           t: Tid, k: K, how: Course<V>, r: Outcome<V, E, P>, via: Via<V>) {
    && (c.bypass <==> via.Bypassed?) && (!via.Led? && !via.Bypassed? ==> NotComputed(actions, t))
    && match via
       case Bypassed => how.readAt < |actions| && actions[how.readAt] == Step(t, Yields(r))
       case StoreError =>
         r.Err? && how.readAt < |actions| && actions[how.readAt] == Step(t, StoreFails(r.partial, r.error))
       case Hit => Saw(c, s, actions, t, k, how) && Finds(how, Fresh) && r == Ok(how.found.value.value)
       case StaleHit => r.Ok? && SawStale(c, s, actions, t, k, how, r.value) && RefreshOnce(c, s, actions, t, k, how)
       case Led(f, fallback) => CallLeads(c, s, actions, t, k, how, f, fallback)
       case Followed(f, fallback) => CallJoined(c, s, actions, t, k, how, f, fallback)
  }

  /** What step n of the run adds to the course of the call. */
  function CourseOn<K, C, V, E, P>(s: World<K, C, V, E, P>, pc: PC<K, C, V, E, P>, n: nat, how: Course<V>): Course<V> {
    match pc
    case AtClock(_, _) => how.(clockAt := n, now := s.clock)
    case AtBypass(_, _) => how.(readAt := n)
    case AtFresh(k, _, _) => how.(readAt := n, found := Find(s.store, k))
    case AtLookup(_, _, _) => how.(lookupAt := n, joinAt := n)
    case AtEntry(k, _, _) => how.(readAt := n, found := Find(s.store, k))
    case AtRefresh(_, _, _) => how.(joinAt := n)
    case AtDo(_, _, _) => how.(joinAt := n)
    case _ => how
  }

  lemma HappensLonger<K, C, V, E, P>(c: Config, s: World<K, C, V, E, P>, actions: seq<Action<K, C, V, E, P>>, i: nat)
    requires actions != [] && Happens(c, s, actions[..|actions| - 1], i)
    ensures Happens(c, s, actions, i)
    ensures Before(c, s, actions, i) == Before(c, s, actions[..|actions| - 1], i)
    ensures actions[i] == actions[..|actions| - 1][i]
  {
    assert actions[..|actions| - 1][..i] == actions[..i];
  }

  /** What has happened has happened. */
  lemma SawLonger<K, C, V, E, P>(c: Config, s: World<K, C, V, E, P>, actions: seq<Action<K, C, V, E, P>>, t: Tid,
                                 k: K, how: Course<V>)
    requires actions != []
    ensures var before := actions[..|actions| - 1];
            && (Clocked(c, s, before, t, how) ==> Clocked(c, s, actions, t, how))
            && (Saw(c, s, before, t, k, how) ==> Saw(c, s, actions, t, k, how))
            && (Passed(c, s, before, t, k, how) ==> Passed(c, s, actions, t, k, how))
            && (RefreshOnce(c, s, before, t, k, how) ==> RefreshOnce(c, s, actions, t, k, how))
            && (forall f :: Joined(c, s, before, t, k, how, f) ==> Joined(c, s, actions, t, k, how, f))
            && (forall f :: Started(c, s, before, t, k, how, f) ==> Started(c, s, actions, t, k, how, f))
  {
    var before := actions[..|actions| - 1];
    if Happens(c, s, before, how.clockAt) { HappensLonger(c, s, actions, how.clockAt); }
    if Happens(c, s, before, how.lookupAt) { HappensLonger(c, s, actions, how.lookupAt); }
    if Happens(c, s, before, how.readAt) { HappensLonger(c, s, actions, how.readAt); }
    if Happens(c, s, before, how.joinAt) { HappensLonger(c, s, actions, how.joinAt); }
    hide Happens, Before;
  }

  lemma NotComputedNext<K, C, V, E, P>(actions: seq<Action<K, C, V, E, P>>, t: Tid)
    requires actions != []
    ensures NotComputed(actions, t) <==>
              NotComputed(actions[..|actions| - 1], t)
              && var a := actions[|actions| - 1]; !(a.Step? && a.t == t && a.choice.Yields?)
  {
  }

  /** A step of another thread, or of none, leaves the thread as it is. */
  lemma OthersLeave<K, C, V, E, P>(c: Config, s: World<K, C, V, E, P>, a: Action<K, C, V, E, P>, t: Tid)
    requires Apply(c, s, a).Some? && t in s.threads && !(a.Step? && a.t == t)
    ensures t in Apply(c, s, a).value.threads && Apply(c, s, a).value.threads[t] == s.threads[t]
  {
  }

  lemma CallLonger<K, C, V, E, P>(c: Config, s: World<K, C, V, E, P>, actions: seq<Action<K, C, V, E, P>>, t: Tid,
                                  k: K, fn: C, how: Course<V>, pc: PC<K, C, V, E, P>)
    requires actions != [] && CallExplained(c, s, actions[..|actions| - 1], t, k, fn, how, pc)
    requires var a := actions[|actions| - 1]; !(a.Step? && a.t == t)
    ensures CallExplained(c, s, actions, t, k, fn, how, pc)
  {
    SawLonger(c, s, actions, t, k, how);
    NotComputedNext(actions, t);
    hide Clocked, Saw, Passed, Joined, Started, RefreshOnce, NotComputed;
  }

  lemma ClockNow<K, C, V, E, P>(c: Config, s: World<K, C, V, E, P>, actions: seq<Action<K, C, V, E, P>>, t: Tid,
                                how: Course<V>, m: World<K, C, V, E, P>)
    requires actions != [] && actions[|actions| - 1] == Step(t, Go) && Exec(c, s, actions[..|actions| - 1]) == Some(m)
    ensures Clocked(c, s, actions, t, how.(clockAt := |actions| - 1, now := m.clock))
  {
  }

  lemma ReadNow<K, C, V, E, P>(c: Config, s: World<K, C, V, E, P>, actions: seq<Action<K, C, V, E, P>>, t: Tid, k: K,
                               how: Course<V>, m: World<K, C, V, E, P>)
    requires actions != [] && actions[|actions| - 1] == Step(t, Go) && Exec(c, s, actions[..|actions| - 1]) == Some(m)
    requires Clocked(c, s, actions[..|actions| - 1], t, how)
    ensures var how' := how.(readAt := |actions| - 1, found := Find(m.store, k));
            && Clocked(c, s, actions, t, how') && Saw(c, s, actions, t, k, how')
            && (Passed(c, s, actions[..|actions| - 1], t, k, how) ==> Passed(c, s, actions, t, k, how'))
  {
    SawLonger(c, s, actions, t, k, how);
    hide Exec;
  }

  lemma LookupNow<K, C, V, E, P>(c: Config, s: World<K, C, V, E, P>, actions: seq<Action<K, C, V, E, P>>, t: Tid,
                                 k: K, how: Course<V>, m: World<K, C, V, E, P>)
    requires actions != [] && actions[|actions| - 1] == Step(t, Go) && Exec(c, s, actions[..|actions| - 1]) == Some(m)
    requires Saw(c, s, actions[..|actions| - 1], t, k, how)
    ensures var how' := how.(lookupAt := |actions| - 1, joinAt := |actions| - 1);
            && Clocked(c, s, actions, t, how') && Saw(c, s, actions, t, k, how')
            && (k !in m.table.registered ==> Passed(c, s, actions, t, k, how'))
            && (k in m.table.registered ==> Joined(c, s, actions, t, k, how', m.table.registered[k]))
  {
    SawLonger(c, s, actions, t, k, how);
    hide Exec;
  }

  lemma JoinNow<K, C, V, E, P>(c: Config, s: World<K, C, V, E, P>, actions: seq<Action<K, C, V, E, P>>, t: Tid, k: K,
                               how: Course<V>, m: World<K, C, V, E, P>, x: Choice<V, E, P>)
    requires actions != [] && actions[|actions| - 1] == Step(t, x) && Exec(c, s, actions[..|actions| - 1]) == Some(m)
    requires Saw(c, s, actions[..|actions| - 1], t, k, how) && Passed(c, s, actions[..|actions| - 1], t, k, how)
    ensures var how' := how.(joinAt := |actions| - 1);
            && Saw(c, s, actions, t, k, how') && Passed(c, s, actions, t, k, how')
            && (x.Go? && k in m.table.registered ==> Joined(c, s, actions, t, k, how', m.table.registered[k]))
            && (x.Go? && k !in m.table.registered ==> Started(c, s, actions, t, k, how', |m.table.flights|))
            && ((if k in m.table.registered then x.Go? else x.Spawns?) ==> RefreshOnce(c, s, actions, t, k, how'))
  {
    SawLonger(c, s, actions, t, k, how);
    hide Exec;
  }

  /** A step of a call that reads the clock, or the flights early. */
  lemma CallLooks<K, C, V, E, P>(c: Config, s: World<K, C, V, E, P>, actions: seq<Action<K, C, V, E, P>>, t: Tid,
                                 k: K, fn: C, how: Course<V>, m: World<K, C, V, E, P>, pc: PC<K, C, V, E, P>,
                                 x: Choice<V, E, P>)
    requires actions != [] && actions[|actions| - 1] == Step(t, x) && Exec(c, s, actions[..|actions| - 1]) == Some(m)
    requires CallExplained(c, s, actions[..|actions| - 1], t, k, fn, how, pc)
    requires (pc.AtClock? || pc.AtLookup?) && Local(c, m, pc, x).Some?
    ensures CallExplained(c, s, actions, t, k, fn, CourseOn(m, pc, |actions| - 1, how), Local(c, m, pc, x).value)
  {
    NotComputedNext(actions, t);
    if pc.AtClock? {
      ClockNow(c, s, actions, t, how, m);
    } else {
      LookupNow(c, s, actions, t, k, how, m);
    }
    hide NotComputed, Exec, Clocked, Saw, Joined, Started, RefreshOnce;
  }

  /** A step of a call that reads the store. */
  lemma CallReads<K, C, V, E, P>(c: Config, s: World<K, C, V, E, P>, actions: seq<Action<K, C, V, E, P>>, t: Tid,
                                 k: K, fn: C, how: Course<V>, m: World<K, C, V, E, P>, pc: PC<K, C, V, E, P>,
                                 x: Choice<V, E, P>)
    requires actions != [] && actions[|actions| - 1] == Step(t, x) && Exec(c, s, actions[..|actions| - 1]) == Some(m)
    requires CallExplained(c, s, actions[..|actions| - 1], t, k, fn, how, pc)
    requires (pc.AtFresh? || pc.AtEntry?) && Local(c, m, pc, x).Some?
    ensures CallExplained(c, s, actions, t, k, fn, CourseOn(m, pc, |actions| - 1, how), Local(c, m, pc, x).value)
  {
    NotComputedNext(actions, t);
    if x.Go? {
      ReadNow(c, s, actions, t, k, how, m);
    }
    hide NotComputed, Exec, Clocked, Saw, Passed, Joined, Started, RefreshOnce;
  }

  /** A local step of a call that has read the store: the flight in progress is joined, or left alone. */
  lemma CallJoins<K, C, V, E, P>(c: Config, s: World<K, C, V, E, P>, actions: seq<Action<K, C, V, E, P>>, t: Tid,
                                 k: K, fn: C, how: Course<V>, m: World<K, C, V, E, P>, pc: PC<K, C, V, E, P>,
                                 x: Choice<V, E, P>)
    requires actions != [] && actions[|actions| - 1] == Step(t, x) && Exec(c, s, actions[..|actions| - 1]) == Some(m)
    requires CallExplained(c, s, actions[..|actions| - 1], t, k, fn, how, pc)
    requires (pc.AtRefresh? || pc.AtDo?) && Local(c, m, pc, x).Some?
    ensures CallExplained(c, s, actions, t, k, fn, CourseOn(m, pc, |actions| - 1, how), Local(c, m, pc, x).value)
  {
    NotComputedNext(actions, t);
    JoinNow(c, s, actions, t, k, how, m, x);
    hide NotComputed, Exec, Clocked, Saw, Passed, Joined, Started, RefreshOnce;
  }

  /** The other local steps of a call. */
  lemma CallGoesOn<K, C, V, E, P>(c: Config, s: World<K, C, V, E, P>, actions: seq<Action<K, C, V, E, P>>, t: Tid,
                                  k: K, fn: C, how: Course<V>, m: World<K, C, V, E, P>, pc: PC<K, C, V, E, P>,
                                  x: Choice<V, E, P>)
    requires actions != [] && actions[|actions| - 1] == Step(t, x) && Exec(c, s, actions[..|actions| - 1]) == Some(m)
    requires CallExplained(c, s, actions[..|actions| - 1], t, k, fn, how, pc)
    requires (pc.AtBypass? || pc.Waiting? || pc.Leading?) && Local(c, m, pc, x).Some?
    ensures CallExplained(c, s, actions, t, k, fn, CourseOn(m, pc, |actions| - 1, how), Local(c, m, pc, x).value)
  {
    NotComputedNext(actions, t);
    SawLonger(c, s, actions, t, k, how);
    hide NotComputed, Exec, Clocked, Saw, Passed, Joined, Started, RefreshOnce, LocalStage;
  }

  /** What becomes of a leader in a step that others see. */
  lemma StageSteps<K, C, V, E, P>(c: Config, s: World<K, C, V, E, P>, t: Tid, pc: PC<K, C, V, E, P>, x: Choice<V, E, P>)
    requires t in s.threads && s.threads[t] == pc && pc.Leading? && SharedStage(c, s, t, pc, x).Some?
    ensures var s' := SharedStage(c, s, t, pc, x).value;
            && t in s'.threads
            && (s'.threads[t].Leading? ==> s'.threads[t] == pc.(stage := s'.threads[t].stage))
            && (!s'.threads[t].Leading? ==>
                  pc.stage.Releasing?
                  && s'.threads[t] == Done(pc.key, Settle(pc.stage.outcome, pc.fallback), Led(pc.flight, pc.fallback)))
  {
  }

  /** The step of a call that starts a flight. */
  lemma CallStarts<K, C, V, E, P>(c: Config, s: World<K, C, V, E, P>, actions: seq<Action<K, C, V, E, P>>, t: Tid,
                                  k: K, fn: C, how: Course<V>, m: World<K, C, V, E, P>, pc: PC<K, C, V, E, P>,
                                  x: Choice<V, E, P>)
    requires actions != [] && actions[|actions| - 1] == Step(t, x) && Exec(c, s, actions[..|actions| - 1]) == Some(m)
    requires CallExplained(c, s, actions[..|actions| - 1], t, k, fn, how, pc)
    requires !pc.Leading? && t in m.threads && m.threads[t] == pc && Shared(c, m, t, pc, x).Some?
    ensures var m' := Shared(c, m, t, pc, x).value;
            && t in m'.threads
            && CallExplained(c, s, actions, t, k, fn, CourseOn(m, pc, |actions| - 1, how), m'.threads[t])
  {
    NotComputedNext(actions, t);
    JoinNow(c, s, actions, t, k, how, m, x);
    hide NotComputed, Exec, Clocked, Saw, Passed, Joined, Started, RefreshOnce;
  }

  /** The steps of a call that publish or end a flight. */
  lemma CallLeadsOn<K, C, V, E, P>(c: Config, s: World<K, C, V, E, P>, actions: seq<Action<K, C, V, E, P>>, t: Tid,
                                   k: K, fn: C, how: Course<V>, m: World<K, C, V, E, P>, pc: PC<K, C, V, E, P>,
                                   x: Choice<V, E, P>)
    requires actions != [] && actions[|actions| - 1] == Step(t, x) && Exec(c, s, actions[..|actions| - 1]) == Some(m)
    requires CallExplained(c, s, actions[..|actions| - 1], t, k, fn, how, pc)
    requires pc.Leading? && t in m.threads && m.threads[t] == pc && SharedStage(c, m, t, pc, x).Some?
    ensures var m' := SharedStage(c, m, t, pc, x).value;
            t in m'.threads && CallExplained(c, s, actions, t, k, fn, how, m'.threads[t])
  {
    SawLonger(c, s, actions, t, k, how);
    StageSteps(c, m, t, pc, x);
    hide NotComputed, Exec, Clocked, Saw, Passed, Joined, Started, SharedStage;
  }

  lemma LocalCalls<K, C, V, E, P>(c: Config, s: World<K, C, V, E, P>, pc: PC<K, C, V, E, P>, x: Choice<V, E, P>)
    requires Local(c, s, pc, x).Some?
    ensures !pc.Done? && !pc.GetDone? && !pc.PutDone?
  {
  }

  lemma CallStep<K, C, V, E, P>(c: Config, s: World<K, C, V, E, P>, actions: seq<Action<K, C, V, E, P>>, t: Tid, k: K,
                                fn: C, how: Course<V>, m: World<K, C, V, E, P>, pc: PC<K, C, V, E, P>,
                                x: Choice<V, E, P>)
    requires actions != [] && actions[|actions| - 1] == Step(t, x) && Exec(c, s, actions[..|actions| - 1]) == Some(m)
    requires CallExplained(c, s, actions[..|actions| - 1], t, k, fn, how, pc)
    requires t in m.threads && m.threads[t] == pc && StepThread(c, m, t, x).Some?
    ensures var m' := StepThread(c, m, t, x).value;
            && t in m'.threads
            && CallExplained(c, s, actions, t, k, fn, CourseOn(m, pc, |actions| - 1, how), m'.threads[t])
  {
    assert !pc.GetClock? && !pc.GetFresh? && !pc.GetEntry? && !pc.PutClock? && !pc.PutWrite?;
    if Local(c, m, pc, x).Some? {
      hide CallExplained, Local, Shared, Exec, CourseOn;
      if pc.AtClock? || pc.AtLookup? {
        CallLooks(c, s, actions, t, k, fn, how, m, pc, x);
      } else if pc.AtFresh? || pc.AtEntry? {
        CallReads(c, s, actions, t, k, fn, how, m, pc, x);
      } else if pc.AtRefresh? || pc.AtDo? {
        CallJoins(c, s, actions, t, k, fn, how, m, pc, x);
      } else {
        LocalCalls(c, m, pc, x);
        CallGoesOn(c, s, actions, t, k, fn, how, m, pc, x);
      }
    } else if pc.Leading? {
      hide CallExplained, Local, SharedStage, Exec;
      CallLeadsOn(c, s, actions, t, k, fn, how, m, pc, x);
    } else {
      hide CallExplained, Local, Shared, Exec, CourseOn;
      CallStarts(c, s, actions, t, k, fn, how, m, pc, x);
    }
  }

  /** Every call, from its beginning in `s` on and on every run: which steps have brought it where it is. */
  lemma {:induction false} CallFate<K, C, V, E, P>(c: Config, before: World<K, C, V, E, P>, s: World<K, C, V, E, P>,
                                                   actions: seq<Action<K, C, V, E, P>>, t: Tid, k: K, fn: C)
    returns (how: Course<V>)
    requires Apply(c, before, Call(t, k, fn)) == Some(s)
    requires Exec(c, s, actions).Some?
    ensures var s' := Exec(c, s, actions).value;
            t in s'.threads && CallExplained(c, s, actions, t, k, fn, how, s'.threads[t])
  {
    if actions == [] {
      how := Course(0, 0, 0, 0, None, 0);
    } else {
      var n := |actions| - 1;
      var m, a := Exec(c, s, actions[..n]).value, actions[n];
      how := CallFate(c, before, s, actions[..n], t, k, fn);
      hide CallExplained, StepThread;
      if a.Step? && a.t == t {
        CallStep(c, s, actions, t, k, fn, how, m, m.threads[t], a.choice);
        how := CourseOn(m, m.threads[t], n, how);
      } else {
        OthersLeave(c, m, a, t);
        CallLonger(c, s, actions, t, k, fn, how, m.threads[t]);
      }
    }
  }

  /** So what a call returns is an outcome it has met itself, a value that it has read, or the outcome of
      the flight that it has led or joined, settled with the expired value that it has read, if any. */
  lemma CallReturns<K, C, V, E, P>(c: Config, before: World<K, C, V, E, P>, s: World<K, C, V, E, P>,
                                   actions: seq<Action<K, C, V, E, P>>, t: Tid, k: K, fn: C)
    returns (how: Course<V>)
    requires Safe(before) && Apply(c, before, Call(t, k, fn)) == Some(s)
    requires Exec(c, s, actions).Some?
    requires t in Exec(c, s, actions).value.threads && Exec(c, s, actions).value.threads[t].Done?
    ensures var s' := Exec(c, s, actions).value; var r, via := s'.threads[t].result, s'.threads[t].via;
            && CallEnded(c, s, actions, t, k, how, r, via)
            && (via.Led? || via.Followed? ==> Settled(s', via.flight, k, r, via.fallback))
  {
    how := CallFate(c, before, s, actions, t, k, fn);
    ApplyKeepsSafe(c, before, Call(t, k, fn));
    ExecEvolves(c, s, actions);
    assert ThreadOk(Exec(c, s, actions).value, t);
    hide Exec, Safe, CallEnded;
  }

  // ---------- stale entries and failing stores ----------

  /** A call that has decided to serve a stale value. */
  predicate ServesStale<K(==), C(==), V(==), E(==), P(==)>(pc: PC<K, C, V, E, P>, k: K, fn: C, v: V) {
    pc == AtRefresh(k, fn, v) || pc == Done(k, Ok(v), StaleHit)
  }

  lemma ServesStaleStep<K, C, V, E, P>(c: Config, s: World<K, C, V, E, P>, a: Action<K, C, V, E, P>, t: Tid, k: K,
                                       fn: C, v: V)
    requires Apply(c, s, a).Some? && t in s.threads && ServesStale(s.threads[t], k, fn, v)
    ensures t in Apply(c, s, a).value.threads && ServesStale(Apply(c, s, a).value.threads[t], k, fn, v)
  {
  }

  lemma {:induction false} ServesStaleOn<K, C, V, E, P>(
      c: Config, s: World<K, C, V, E, P>, actions: seq<Action<K, C, V, E, P>>, t: Tid, k: K, fn: C, v: V)
    requires Exec(c, s, actions).Some? && t in s.threads && ServesStale(s.threads[t], k, fn, v)
    ensures var s' := Exec(c, s, actions).value; t in s'.threads && ServesStale(s'.threads[t], k, fn, v)
  {
    if actions != [] {
      var n := |actions| - 1;
      ServesStaleOn(c, s, actions[..n], t, k, fn, v);
      ServesStaleStep(c, Exec(c, s, actions[..n]).value, actions[n], t, k, fn, v);
      hide Apply, ServesStale;
    }
  }

  /** A call whose reading of the entry finds it stale never waits and never computes: on every run it
      returns the stale value, whatever flights there are, and it can do so with a step of its own. */
  lemma {:induction false} StaleReadReturns<K, C, V, E, P>(
      c: Config, s: World<K, C, V, E, P>, t: Tid, k: K, fn: C, now: Time, actions: seq<Action<K, C, V, E, P>>)
    requires !s.crashed && t in s.threads && s.threads[t] == AtEntry(k, fn, now)
    requires k in s.store && State(s.store[k], now) == Stale
    ensures Apply(c, s, Step(t, Go)).Some?
    ensures Exec(c, Apply(c, s, Step(t, Go)).value, actions).Some? ==>
              var s' := Exec(c, Apply(c, s, Step(t, Go)).value, actions).value; var v := s.store[k].value;
              && t in s'.threads && ServesStale(s'.threads[t], k, fn, v)
              && (!s'.crashed && s'.threads[t].AtRefresh? ==>
                    forall u | u !in s'.threads ::
                      Apply(c, s', Step(t, if k in s'.table.registered then Go else Spawns(u))).Some?)
  {
    var next := Apply(c, s, Step(t, Go)).value;
    if Exec(c, next, actions).Some? {
      var s' := Exec(c, next, actions).value;
      ServesStaleOn(c, next, actions, t, k, fn, s.store[k].value);
      if !s'.crashed && s'.threads[t].AtRefresh? {
        RefreshReady(c, s', t);
      }
    }
  }

  lemma RefreshReady<K, C, V, E, P>(c: Config, s: World<K, C, V, E, P>, t: Tid)
    requires !s.crashed && t in s.threads && s.threads[t].AtRefresh?
    ensures forall u | u !in s.threads ::
              Apply(c, s, Step(t, if s.threads[t].key in s.table.registered then Go else Spawns(u))).Some?
  {
  }

  lemma {:induction false} ReturnedStays<K, C, V, E, P>(
      c: Config, s: World<K, C, V, E, P>, actions: seq<Action<K, C, V, E, P>>, t: Tid)
    requires Exec(c, s, actions).Some? && t in s.threads && s.threads[t].Done?
    ensures t in Exec(c, s, actions).value.threads && Exec(c, s, actions).value.threads[t] == s.threads[t]
  {
    if actions != [] {
      var n := |actions| - 1;
      ReturnedStays(c, s, actions[..n], t);
      WaiterSteps(c, Exec(c, s, actions[..n]).value, actions[n], t);
      hide Apply;
    }
  }

  /** Whenever the store can be read it can fail, and then the call returns exactly that error, without
      having computed or touched the store. */
  lemma {:induction false} FailedReadReturns<K, C, V, E, P>(
      c: Config, s: World<K, C, V, E, P>, t: Tid, v: V, e: E, actions: seq<Action<K, C, V, E, P>>)
    requires !s.crashed && t in s.threads && (s.threads[t].AtFresh? || s.threads[t].AtEntry?)
    ensures Apply(c, s, Step(t, StoreFails(v, e))).Some?
    ensures var failed := Apply(c, s, Step(t, StoreFails(v, e))).value;
            && failed.store == s.store && failed.table == s.table
            && (Exec(c, failed, actions).Some? ==>
                  var s' := Exec(c, failed, actions).value;
                  t in s'.threads && s'.threads[t] == Done(s.threads[t].key, Err(v, e), StoreError))
  {
    var failed := Apply(c, s, Step(t, StoreFails(v, e))).value;
    if Exec(c, failed, actions).Some? {
      ReturnedStays(c, failed, actions, t);
    }
  }
}
