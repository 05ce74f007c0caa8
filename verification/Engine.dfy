/** The cache engine of cache.go as a transition system. Any number of threads run `GetOrCompute`,
    `Get` and `Set`; each critical section, clock reading and store call is one atomic step. */
module Engine {
  import opened Envelope
  import opened Flights

  /** `supportsFresh`: the store has `PeekFreshValue`. `keepStale`: KeepStaleOnError. */
  datatype Config = Config(policy: Policy, supportsFresh: bool, keepStale: bool, bypass: bool)

  /** What the leader of a flight does, in order. */
  datatype Stage<V, E, P> =
    | RecheckClock
    | RecheckFresh(now: Time)
    | RecheckEntry(now: Time)
    | Begin
    | Computing(began: Time)
    | SetClock(began: Time, value: V)
    | SetWrite(began: Time, value: V, now: Time)
    | Publishing(outcome: Outcome<V, E, P>)
    | Unregistering(outcome: Outcome<V, E, P>)
    | Releasing(outcome: Outcome<V, E, P>)

  /** How a call of `GetOrCompute` came by its result. */
  datatype Via<V> =
    | Hit
    | StaleHit
    | Led(flight: nat, fallback: Option<V>)
    | Followed(flight: nat, fallback: Option<V>)
    | StoreError
    | Bypassed

  /** The program counter of a thread. `fn` is the compute function passed to the call and
      `fallback` the value that stale-on-error may serve. */
  datatype PC<K, C, V, E, P> =
    | AtClock(key: K, fn: C)
    | AtBypass(key: K, fn: C)
    | AtFresh(key: K, fn: C, now: Time)
    | AtLookup(key: K, fn: C, now: Time)
    | AtEntry(key: K, fn: C, now: Time)
    | AtRefresh(key: K, fn: C, value: V)
    | AtDo(key: K, fn: C, fallback: Option<V>)
    | Waiting(key: K, flight: nat, fallback: Option<V>)
    | Leading(key: K, fn: C, flight: nat, fallback: Option<V>, background: bool, stage: Stage<V, E, P>)
    | Done(key: K, result: Outcome<V, E, P>, via: Via<V>)
    | GetClock(key: K)
    | GetFresh(key: K, now: Time)
    | GetEntry(key: K, now: Time)
    | GetDone(key: K, found: Option<V>, failure: Option<E>)
    | PutClock(key: K, value: V)
    | PutWrite(key: K, value: V, now: Time)
    | PutDone(key: K, failure: Option<E>)

  /** A successful computation that was stored: when it began and until when its value is fresh. */
  datatype Window<K> = Window(key: K, began: Time, until: Time)

  datatype World<K, C, V, E, P> = World(
    clock: Time,
    store: map<K, Stored<V>>,
    table: Table<K, V, E, P>,
    threads: map<Tid, PC<K, C, V, E, P>>,
    crashed: bool,
    windows: seq<Window<K>>)

  /** The nondeterminism of one step: the store may fail, the compute function may do anything,
      a failing store write may or may not have taken effect. */
  datatype Choice<V, E, P> =
    | Go
    | StoreFails(partial: V, error: E)
    | Yields(outcome: Outcome<V, E, P>)
    | Spawns(child: Tid)
    | WriteFails(error: E, wrote: bool)

  datatype Action<K, C, V, E, P> =
    | Call(t: Tid, key: K, fn: C)
    | CallGet(t: Tid, key: K)
    | CallSet(t: Tid, key: K, value: V)
    | Tick(now: Time)
    | Remove(keys: set<K>)
    | Step(t: Tid, choice: Choice<V, E, P>)

  function Init<K, C, V, E, P>(clock: Time): World<K, C, V, E, P> {
    World(clock, map[], Table(map[], []), map[], false, [])
  }

  // ---------- steps ----------

  function FreshAt<K, V>(store: map<K, Stored<V>>, key: K, now: Time): bool {
    key in store && IsFresh(store[key], now)
  }

  /** Stale-on-error: an error with a value to fall back on becomes that value. */
  function Settle<V, E, P>(o: Outcome<V, E, P>, fallback: Option<V>): Outcome<V, E, P> {
    if o.Err? && fallback.Some? then Ok(fallback.value) else o
  }

  /** Does this cache wait for a flight before it reads the entry? */
  predicate WaitsFirst(c: Config) {
    c.policy.staleTTL == 0 && !c.keepStale
  }

  /** Steps of a leader that change nothing but its own stage. */
  function LocalStage<K, V, E, P>(c: Config, clock: Time, store: map<K, Stored<V>>, key: K, background: bool,
                                  stage: Stage<V, E, P>, x: Choice<V, E, P>): Option<Stage<V, E, P>> {
    match stage
    case RecheckClock =>
      if x.Go? then Some(if c.supportsFresh then RecheckFresh(clock) else RecheckEntry(clock)) else None
    case RecheckFresh(now) =>
      if x.StoreFails? then Some(Publishing(Err(x.partial, x.error)))
      else if !x.Go? then None
      else if FreshAt(store, key, now) then Some(Publishing(Ok(store[key].value)))
      else Some(RecheckEntry(now))
    case RecheckEntry(now) =>
      if x.StoreFails? then Some(Publishing(Err(x.partial, x.error)))
      else if !x.Go? then None
      else if FreshAt(store, key, now) then Some(Publishing(Ok(store[key].value)))
      else Some(Begin)
    case Begin =>
      if x.Go? then Some(Computing(clock)) else None
    case Computing(began) =>
      if !x.Yields? then None
      else if x.outcome.Ok? then Some(SetClock(began, x.outcome.value))
      else if x.outcome.Panic? && background then None
      else Some(Publishing(x.outcome))
    case SetClock(began, value) =>
      if x.Go? then Some(SetWrite(began, value, clock)) else None
    case _ => None
  }

  /** Steps that change nothing but the thread's own program counter. */
  function Local<K, C, V, E, P>(c: Config, s: World<K, C, V, E, P>, pc: PC<K, C, V, E, P>, x: Choice<V, E, P>)
    : Option<PC<K, C, V, E, P>>
  {
    match pc
    case AtClock(k, fn) =>
      if x.Go? then Some(if c.supportsFresh then AtFresh(k, fn, s.clock) else AtEntry(k, fn, s.clock)) else None
    case AtBypass(k, fn) =>
      if x.Yields? then Some(Done(k, x.outcome, Bypassed)) else None
    case AtFresh(k, fn, now) =>
      if x.StoreFails? then Some(Done(k, Err(x.partial, x.error), StoreError))
      else if !x.Go? then None
      else if FreshAt(s.store, k, now) then Some(Done(k, Ok(s.store[k].value), Hit))
      else Some(if WaitsFirst(c) then AtLookup(k, fn, now) else AtEntry(k, fn, now))
    case AtLookup(k, fn, now) =>
      if !x.Go? then None
      else if k in s.table.registered then Some(Waiting(k, s.table.registered[k], None))
      else Some(AtEntry(k, fn, now))
    case AtEntry(k, fn, now) =>
      if x.StoreFails? then Some(Done(k, Err(x.partial, x.error), StoreError))
      else if !x.Go? then None
      else if k !in s.store then Some(AtDo(k, fn, None))
      else (match State(s.store[k], now)
            case Fresh => Some(Done(k, Ok(s.store[k].value), Hit))
            case Stale => Some(AtRefresh(k, fn, s.store[k].value))
            case Expired => Some(AtDo(k, fn, if c.keepStale then Some(s.store[k].value) else None)))
    case AtRefresh(k, fn, v) =>
      if x.Go? && k in s.table.registered then Some(Done(k, Ok(v), StaleHit)) else None
    case AtDo(k, fn, fallback) =>
      if x.Go? && k in s.table.registered then Some(Waiting(k, s.table.registered[k], fallback)) else None
    case Waiting(k, f, fallback) =>
      if x.Go? && f < |s.table.flights| && s.table.flights[f].pending == 0 && s.table.flights[f].outcome.Some?
      then Some(Done(k, Settle(s.table.flights[f].outcome.value, fallback), Followed(f, fallback)))
      else None
    case Leading(k, fn, f, fallback, background, stage) =>
      (match LocalStage(c, s.clock, s.store, k, background, stage, x)
       case None => None
       case Some(stage') => Some(Leading(k, fn, f, fallback, background, stage')))
    case GetClock(k) =>
      if x.Go? then Some(if c.supportsFresh then GetFresh(k, s.clock) else GetEntry(k, s.clock)) else None
    case GetFresh(k, now) =>
      if x.StoreFails? then Some(GetDone(k, None, Some(x.error)))
      else if !x.Go? then None
      else if FreshAt(s.store, k, now) then Some(GetDone(k, Some(s.store[k].value), None))
      else Some(GetEntry(k, now))
    case GetEntry(k, now) =>
      if x.StoreFails? then Some(GetDone(k, None, Some(x.error)))
      else if !x.Go? then None
      else Some(GetDone(k, if FreshAt(s.store, k, now) then Some(s.store[k].value) else None, None))
    case PutClock(k, v) =>
      if x.Go? then Some(PutWrite(k, v, s.clock)) else None
    case _ => None
  }

  function Goto<K, C, V, E, P>(s: World<K, C, V, E, P>, t: Tid, pc: PC<K, C, V, E, P>): World<K, C, V, E, P> {
    s.(threads := s.threads[t := pc])
  }

  /** Steps of a leader that write the store or the flight table. */
  function SharedStage<K, C, V, E, P>(c: Config, s: World<K, C, V, E, P>, t: Tid, pc: PC<K, C, V, E, P>,
                                      x: Choice<V, E, P>)
    : Option<World<K, C, V, E, P>>
    requires pc.Leading?
  {
    if pc.flight >= |s.table.flights| then None
    else
      match pc.stage
      case Computing(_) =>
        // `refresh` has no recover: a panic in it ends the process.
        if x.Yields? && x.outcome.Panic? && pc.background then Some(s.(crashed := true)) else None
      case SetWrite(began, v, now) =>
        var written := s.store[pc.key := Seal(c.policy, v, now)];
        if x.Go? then
          Some(Goto(s, t, pc.(stage := Publishing(Ok(v))))
               .(store := written, windows := s.windows + [Window(pc.key, began, now + c.policy.ttl)]))
        else if x.WriteFails? then
          Some(Goto(s, t, pc.(stage := Publishing(Err(v, x.error)))).(store := if x.wrote then written else s.store))
        else None
      case Publishing(o) =>
        if x.Go? then
          Some(Goto(s, t, pc.(stage := Unregistering(o))).(table := Publish(s.table, pc.flight, o)))
        else None
      case Unregistering(o) =>
        if x.Go? then
          Some(Goto(s, t, pc.(stage := Releasing(o))).(table := Unregister(s.table, pc.key)))
        else None
      case Releasing(o) =>
        if x.Go? then
          Some(Goto(s, t, Done(pc.key, Settle(o, pc.fallback), Led(pc.flight, pc.fallback)))
               .(table := Release(s.table, pc.flight)))
        else None
      case _ => None
  }

  /** Steps that write shared state. */
  function Shared<K, C, V, E, P>(c: Config, s: World<K, C, V, E, P>, t: Tid, pc: PC<K, C, V, E, P>, x: Choice<V, E, P>)
    : Option<World<K, C, V, E, P>>
  {
    match pc
    case AtRefresh(k, fn, v) =>
      if x.Spawns? && k !in s.table.registered && x.child !in s.threads && x.child != t then
        var f := |s.table.flights|;
        var done := Goto(s, t, Done(k, Ok(v), StaleHit));
        Some(Goto(done, x.child, Leading(k, fn, f, None, true, Begin)).(table := Start(s.table, k, x.child)))
      else None
    case AtDo(k, fn, fallback) =>
      if x.Go? && k !in s.table.registered then
        var f := |s.table.flights|;
        Some(Goto(s, t, Leading(k, fn, f, fallback, false, RecheckClock)).(table := Start(s.table, k, t)))
      else None
    case Leading(_, _, _, _, _, _) => SharedStage(c, s, t, pc, x)
    case PutWrite(k, v, now) =>
      var written := s.store[k := Seal(c.policy, v, now)];
      if x.Go? then Some(Goto(s, t, PutDone(k, None)).(store := written))
      else if x.WriteFails? then
        Some(Goto(s, t, PutDone(k, Some(x.error))).(store := if x.wrote then written else s.store))
      else None
    case _ => None
  }

  /** One step of thread `t`, if it can take one. */
  function StepThread<K, C, V, E, P>(c: Config, s: World<K, C, V, E, P>, t: Tid, x: Choice<V, E, P>)
    : Option<World<K, C, V, E, P>>
    requires t in s.threads
  {
    match Local(c, s, s.threads[t], x)
    case Some(pc) => Some(Goto(s, t, pc))
    case None => Shared(c, s, t, s.threads[t], x)
  }

  /** `None` when the action cannot happen. `Remove` stands for Delete, Clear, tag invalidation
      and whatever the store evicts by itself. */
  function Apply<K, C, V, E, P>(c: Config, s: World<K, C, V, E, P>, a: Action<K, C, V, E, P>)
    : Option<World<K, C, V, E, P>>
  {
    if s.crashed then None
    else
      match a
      case Call(t, k, fn) =>
        if t in s.threads then None
        else Some(Goto(s, t, if c.bypass then AtBypass(k, fn) else AtClock(k, fn)))
      case CallGet(t, k) =>
        if t in s.threads then None
        else Some(Goto(s, t, if c.bypass then GetDone(k, None, None) else GetClock(k)))
      case CallSet(t, k, v) =>
        if t in s.threads then None
        else Some(Goto(s, t, if c.bypass then PutDone(k, None) else PutClock(k, v)))
      case Tick(now) => Some(s.(clock := now))
      case Remove(keys) => Some(s.(store := s.store - keys))
      case Step(t, x) => if t in s.threads then StepThread(c, s, t, x) else None
  }

  /** The state that a sequence of actions leads to, if all of them can happen. */
  function Exec<K, C, V, E, P>(c: Config, s: World<K, C, V, E, P>, actions: seq<Action<K, C, V, E, P>>)
    : Option<World<K, C, V, E, P>>
  {
    if actions == [] then Some(s)
    else
      match Exec(c, s, actions[..|actions| - 1])
      case None => None
      case Some(m) => Apply(c, m, actions[|actions| - 1])
  }

  /** Every action of the run is one that `allowed` permits in the state it happens in. */
  ghost predicate Throughout<K, C, V, E, P>(c: Config, s: World<K, C, V, E, P>, actions: seq<Action<K, C, V, E, P>>,
                                            allowed: (World<K, C, V, E, P>, Action<K, C, V, E, P>) -> bool) {
    forall i | 0 <= i < |actions| ::
      Exec(c, s, actions[..i]).Some? ==> allowed(Exec(c, s, actions[..i]).value, actions[i])
  }

  lemma ThroughoutPrefix<K, C, V, E, P>(c: Config, s: World<K, C, V, E, P>, actions: seq<Action<K, C, V, E, P>>,
                                        allowed: (World<K, C, V, E, P>, Action<K, C, V, E, P>) -> bool)
    requires actions != [] && Exec(c, s, actions).Some? && Throughout(c, s, actions, allowed)
    ensures var before := actions[..|actions| - 1];
            Throughout(c, s, before, allowed) && Exec(c, s, before).Some?
            && allowed(Exec(c, s, before).value, actions[|actions| - 1])
  {
    var before := actions[..|actions| - 1];
    forall i | 0 <= i < |before| ensures before[..i] == actions[..i] && before[i] == actions[i] {}
  }

  lemma ThroughoutExtend<K, C, V, E, P>(c: Config, s: World<K, C, V, E, P>, actions: seq<Action<K, C, V, E, P>>,
                                        m: World<K, C, V, E, P>, a: Action<K, C, V, E, P>,
                                        allowed: (World<K, C, V, E, P>, Action<K, C, V, E, P>) -> bool)
    requires Exec(c, s, actions) == Some(m) && Throughout(c, s, actions, allowed) && allowed(m, a)
    ensures Throughout(c, s, actions + [a], allowed)
    ensures Exec(c, s, actions + [a]) == Apply(c, m, a)
  {
    var longer := actions + [a];
    assert longer[..|longer| - 1] == actions;
    forall i | 0 <= i < |longer|
      ensures Exec(c, s, longer[..i]).Some? ==> allowed(Exec(c, s, longer[..i]).value, longer[i])
    {
      if i < |actions| {
        assert longer[..i] == actions[..i];
      }
    }
  }
}
