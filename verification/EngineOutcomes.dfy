/** Where the outcome of every flight comes from, on every run, and what a `Get` and a `Set` do. */
module EngineOutcomes {
  import opened Envelope
  import opened Flights
  import opened Engine
  import opened EngineSafety
  import opened EngineFates

  /** The steps of a leader that matter: its second look at the store, or the clock reading of its write;
      the end of its computation or the failure of the store; and its write. */
  datatype Origin<V> = Origin(look: Course<V>, beganAt: nat, began: Time, endAt: nat, writeAt: nat)

  predicate StepOf<K, C, V, E, P>(actions: seq<Action<K, C, V, E, P>>, t: Tid, i: nat) {
    i < |actions| && actions[i].Step? && actions[i].t == t
  }

  ghost predicate Ends<K, C, V, E, P>(actions: seq<Action<K, C, V, E, P>>, t: Tid, i: nat, x: Choice<V, E, P>) {
    i < |actions| && actions[i] == Step(t, x)
  }

  /** Action i, a step of thread t, writes the sealed value, or may do so and fails. */
  ghost predicate Writes<K, C, V, E, P>(c: Config, s: World<K, C, V, E, P>, actions: seq<Action<K, C, V, E, P>>,
                                        t: Tid, k: K, v: V, now: Time, i: nat, x: Choice<V, E, P>) {
    && Happens(c, s, actions, i) && actions[i] == Step(t, x)
    && var m := Before(c, s, actions, i);
       var m' := Apply(c, m, actions[i]);
       && m'.Some?
       && m'.value.store ==
          if x.Go? || (x.WriteFails? && x.wrote) then m.store[k := Seal(c.policy, v, now)] else m.store
  }

  /** What the leader of a flight publishes: the error of a failing store, a fresh value that it found, a
      failure of the compute function, or its value, which it has then written, or has failed to. */
  ghost predicate OutcomeExplained<K, C, V, E, P>(c: Config, s: World<K, C, V, E, P>,
                                                  actions: seq<Action<K, C, V, E, P>>, t: Tid, k: K, from: Origin<V>,
                                                  o: Outcome<V, E, P>) {
    || (o.Err? && Ends(actions, t, from.endAt, StoreFails(o.partial, o.error)))
    || (o.Ok? && Saw(c, s, actions, t, k, from.look) && Finds(from.look, Fresh)
        && o.value == from.look.found.value.value)
    || (!o.Ok? && Began(c, s, actions, t, from) && from.beganAt < from.endAt && Ends(actions, t, from.endAt, Yields(o)))
    || (o.Ok? && Computed(c, s, actions, t, from, o.value)
        && Writes(c, s, actions, t, k, o.value, from.look.now, from.writeAt, Go) && Records(c, s, actions, k, from))
    || (o.Err? && Computed(c, s, actions, t, from, o.partial)
        && exists wrote ::
          Writes(c, s, actions, t, k, o.partial, from.look.now, from.writeAt, WriteFails(o.error, wrote)))
  }

  /** The compute function has been called. */
  ghost predicate Began<K, C, V, E, P>(c: Config, s: World<K, C, V, E, P>, actions: seq<Action<K, C, V, E, P>>,
                                       t: Tid, from: Origin<V>) {
    && Happens(c, s, actions, from.beganAt) && actions[from.beganAt] == Step(t, Go)
    && Before(c, s, actions, from.beganAt).clock == from.began
  }

  /** The write adds the window from the call of the compute function to the end of the value's ttl. */
  ghost predicate Records<K, C, V, E, P>(c: Config, s: World<K, C, V, E, P>, actions: seq<Action<K, C, V, E, P>>,
                                         k: K, from: Origin<V>) {
    && Happens(c, s, actions, from.writeAt)
    && var m := Before(c, s, actions, from.writeAt);
       var m' := Apply(c, m, actions[from.writeAt]);
       m'.Some? && m'.value.windows == m.windows + [Window(k, from.began, from.look.now + c.policy.ttl)]
  }

  /** The compute function has returned v, and the clock has been read after that. */
  ghost predicate Computed<K, C, V, E, P>(c: Config, s: World<K, C, V, E, P>, actions: seq<Action<K, C, V, E, P>>,
                                          t: Tid, from: Origin<V>, v: V) {
    && Began(c, s, actions, t, from) && from.beganAt < from.endAt && Ends(actions, t, from.endAt, Yields(Ok(v)))
    && Clocked(c, s, actions, t, from.look) && from.endAt < from.look.clockAt
  }

  ghost predicate StageExplained<K, C, V, E, P>(c: Config, s: World<K, C, V, E, P>,
                                                actions: seq<Action<K, C, V, E, P>>, t: Tid, k: K, from: Origin<V>,
                                                stage: Stage<V, E, P>) {
    match stage
    case RecheckFresh(now) => Clocked(c, s, actions, t, from.look) && now == from.look.now
    case RecheckEntry(now) => Clocked(c, s, actions, t, from.look) && now == from.look.now
    case Computing(began) => Began(c, s, actions, t, from) && began == from.began
    case SetClock(began, v) =>
      && Began(c, s, actions, t, from) && began == from.began && from.beganAt < from.endAt
      && Ends(actions, t, from.endAt, Yields(Ok(v)))
    case SetWrite(began, v, now) =>
      Computed(c, s, actions, t, from, v) && began == from.began && now == from.look.now
    case Publishing(o) => OutcomeExplained(c, s, actions, t, k, from, o)
    case Unregistering(o) => OutcomeExplained(c, s, actions, t, k, from, o)
    case Releasing(o) => OutcomeExplained(c, s, actions, t, k, from, o)
    case _ => true
  }

  /** What step n of the run adds. */
  function OriginOn<K, C, V, E, P>(s: World<K, C, V, E, P>, k: K, stage: Stage<V, E, P>, n: nat, from: Origin<V>)
    : Origin<V>
  {
    match stage
    case RecheckClock => from.(look := from.look.(clockAt := n, now := s.clock))
    case RecheckFresh(_) => from.(look := from.look.(readAt := n, found := Find(s.store, k)), endAt := n)
    case RecheckEntry(_) => from.(look := from.look.(readAt := n, found := Find(s.store, k)), endAt := n)
    case Begin => from.(beganAt := n, began := s.clock)
    case Computing(_) => from.(endAt := n)
    case SetClock(_, _) => from.(look := from.look.(clockAt := n, now := s.clock))
    case SetWrite(_, _, _) => from.(writeAt := n)
    case _ => from
  }

  lemma WritesLonger<K, C, V, E, P>(c: Config, s: World<K, C, V, E, P>, actions: seq<Action<K, C, V, E, P>>, t: Tid,
                                    k: K, v: V, now: Time, i: nat, x: Choice<V, E, P>)
    requires actions != [] && Writes(c, s, actions[..|actions| - 1], t, k, v, now, i, x)
    ensures Writes(c, s, actions, t, k, v, now, i, x)
  {
    HappensLonger(c, s, actions, i);
    hide Happens, Before, Apply;
  }

  lemma BeganLonger<K, C, V, E, P>(c: Config, s: World<K, C, V, E, P>, actions: seq<Action<K, C, V, E, P>>, t: Tid,
                                   k: K, from: Origin<V>)
    requires actions != []
    ensures var before := actions[..|actions| - 1];
            && (Began(c, s, before, t, from) ==> Began(c, s, actions, t, from))
            && (Records(c, s, before, k, from) ==> Records(c, s, actions, k, from))
  {
    var before := actions[..|actions| - 1];
    if Happens(c, s, before, from.beganAt) {
      HappensLonger(c, s, actions, from.beganAt);
    }
    if Happens(c, s, before, from.writeAt) {
      HappensLonger(c, s, actions, from.writeAt);
    }
    hide Happens, Before, Apply;
  }

  lemma OutcomeLonger<K, C, V, E, P>(c: Config, s: World<K, C, V, E, P>, actions: seq<Action<K, C, V, E, P>>, t: Tid,
                                     k: K, from: Origin<V>, o: Outcome<V, E, P>)
    requires actions != [] && OutcomeExplained(c, s, actions[..|actions| - 1], t, k, from, o)
    ensures OutcomeExplained(c, s, actions, t, k, from, o)
  {
    var before := actions[..|actions| - 1];
    SawLonger(c, s, actions, t, k, from.look);
    BeganLonger(c, s, actions, t, k, from);
    forall v, x | Writes(c, s, before, t, k, v, from.look.now, from.writeAt, x)
      ensures Writes(c, s, actions, t, k, v, from.look.now, from.writeAt, x)
    {
      WritesLonger(c, s, actions, t, k, v, from.look.now, from.writeAt, x);
    }
    hide Writes, Clocked, Saw, Began, Records;
  }

  lemma StageLonger<K, C, V, E, P>(c: Config, s: World<K, C, V, E, P>, actions: seq<Action<K, C, V, E, P>>, t: Tid,
                                   k: K, from: Origin<V>, stage: Stage<V, E, P>)
    requires actions != [] && StageExplained(c, s, actions[..|actions| - 1], t, k, from, stage)
    ensures StageExplained(c, s, actions, t, k, from, stage)
  {
    SawLonger(c, s, actions, t, k, from.look);
    BeganLonger(c, s, actions, t, k, from);
    if stage.Publishing? || Published(stage) {
      OutcomeLonger(c, s, actions, t, k, from, stage.outcome);
    }
    hide OutcomeExplained, Clocked, Saw, Began, Records;
  }

  /** A step of a leader that only it sees. */
  lemma StageLocal<K, C, V, E, P>(c: Config, s: World<K, C, V, E, P>, actions: seq<Action<K, C, V, E, P>>, t: Tid,
                                  k: K, from: Origin<V>, m: World<K, C, V, E, P>, pc: PC<K, C, V, E, P>,
                                  x: Choice<V, E, P>)
    requires actions != [] && actions[|actions| - 1] == Step(t, x) && Exec(c, s, actions[..|actions| - 1]) == Some(m)
    requires pc.Leading? && pc.key == k && StageExplained(c, s, actions[..|actions| - 1], t, k, from, pc.stage)
    requires LocalStage(c, m.clock, m.store, k, pc.background, pc.stage, x).Some?
    ensures StageExplained(c, s, actions, t, k, OriginOn(m, k, pc.stage, |actions| - 1, from),
                           LocalStage(c, m.clock, m.store, k, pc.background, pc.stage, x).value)
  {
    var n := |actions| - 1;
    SawLonger(c, s, actions, t, k, from.look);
    BeganLonger(c, s, actions, t, k, from);
    if x.Go? {
      match pc.stage {
        case RecheckClock => ClockNow(c, s, actions, t, from.look, m);
        case RecheckFresh(_) => ReadNow(c, s, actions, t, k, from.look, m);
        case RecheckEntry(_) => ReadNow(c, s, actions, t, k, from.look, m);
        case SetClock(_, _) => ClockNow(c, s, actions, t, from.look, m);
        case Begin => assert Began(c, s, actions, t, OriginOn(m, k, pc.stage, n, from));
        case _ =>
      }
    }
    hide Exec, Clocked, Saw, Writes, Records;
  }

  /** What the write of a leader changes. */
  lemma WriteSteps<K, C, V, E, P>(c: Config, s: World<K, C, V, E, P>, t: Tid, pc: PC<K, C, V, E, P>, x: Choice<V, E, P>)
    requires t in s.threads && s.threads[t] == pc && pc.Leading? && pc.stage.SetWrite?
    requires Apply(c, s, Step(t, x)).Some?
    ensures var s' := Apply(c, s, Step(t, x)).value;
            var stage := pc.stage;
            && (x.Go? || x.WriteFails?) && t in s'.threads
            && s'.threads[t] == pc.(stage := Publishing(if x.Go? then Ok(stage.value) else Err(stage.value, x.error)))
            && s'.store == (if x.Go? || x.wrote then s.store[pc.key := Seal(c.policy, stage.value, stage.now)]
                            else s.store)
            && (x.Go? ==> s'.windows == s.windows + [Window(pc.key, stage.began, stage.now + c.policy.ttl)])
  {
  }

  /** The write of a leader. */
  lemma StageWrites<K, C, V, E, P>(c: Config, s: World<K, C, V, E, P>, actions: seq<Action<K, C, V, E, P>>, t: Tid,
                                   k: K, from: Origin<V>, m: World<K, C, V, E, P>, pc: PC<K, C, V, E, P>,
                                   x: Choice<V, E, P>)
    requires actions != [] && actions[|actions| - 1] == Step(t, x) && Exec(c, s, actions[..|actions| - 1]) == Some(m)
    requires pc.Leading? && pc.key == k && StageExplained(c, s, actions[..|actions| - 1], t, k, from, pc.stage)
    requires t in m.threads && m.threads[t] == pc && pc.stage.SetWrite? && Apply(c, m, Step(t, x)).Some?
    ensures var m' := Apply(c, m, Step(t, x)).value;
            && t in m'.threads && m'.threads[t] == pc.(stage := m'.threads[t].stage) && m'.threads[t].Leading?
            && StageExplained(c, s, actions, t, k, OriginOn(m, k, pc.stage, |actions| - 1, from), m'.threads[t].stage)
  {
    var n := |actions| - 1;
    hide Apply, Exec;
    WriteSteps(c, m, t, pc, x);
    SawLonger(c, s, actions, t, k, from.look);
    BeganLonger(c, s, actions, t, k, from);
    assert Writes(c, s, actions, t, k, pc.stage.value, pc.stage.now, n, x);
    assert x.Go? ==> Records(c, s, actions, k, from.(writeAt := n));
    hide Clocked, Saw, Writes, Began, Records;
  }

  /** What is known of a leader, and of its flight once it has left. */
  ghost predicate LeaderExplained<K, C, V, E, P>(c: Config, s: World<K, C, V, E, P>,
                                                 actions: seq<Action<K, C, V, E, P>>, t: Tid, k: K, f: nat,
                                                 from: Origin<V>, s': World<K, C, V, E, P>) {
    && t in s'.threads
    && if s'.threads[t].Leading? then
         s'.threads[t].key == k && s'.threads[t].flight == f
         && StageExplained(c, s, actions, t, k, from, s'.threads[t].stage)
       else
         s'.threads[t].Done? && f < |s'.table.flights| && s'.table.flights[f].outcome.Some?
         && OutcomeExplained(c, s, actions, t, k, from, s'.table.flights[f].outcome.value)
  }

  lemma LeaderFinishes<K, C, V, E, P>(c: Config, s: World<K, C, V, E, P>, actions: seq<Action<K, C, V, E, P>>, t: Tid,
                                      k: K, f: nat, from: Origin<V>, m: World<K, C, V, E, P>, x: Choice<V, E, P>)
    requires actions != [] && LeaderExplained(c, s, actions[..|actions| - 1], t, k, f, from, m) && ThreadOk(m, t)
    requires m.threads[t].Leading? && !m.threads[t].stage.SetWrite? && SharedStage(c, m, t, m.threads[t], x).Some?
    ensures LeaderExplained(c, s, actions, t, k, f, from, SharedStage(c, m, t, m.threads[t], x).value)
  {
    StageLonger(c, s, actions, t, k, from, m.threads[t].stage);
    hide OutcomeExplained;
  }

  /** A step of the leader itself. */
  lemma LeaderStep<K, C, V, E, P>(c: Config, s: World<K, C, V, E, P>, actions: seq<Action<K, C, V, E, P>>, t: Tid,
                                  k: K, f: nat, from: Origin<V>, m: World<K, C, V, E, P>, x: Choice<V, E, P>)
    returns (from': Origin<V>)
    requires actions != [] && actions[|actions| - 1] == Step(t, x) && Exec(c, s, actions[..|actions| - 1]) == Some(m)
    requires LeaderExplained(c, s, actions[..|actions| - 1], t, k, f, from, m) && ThreadOk(m, t)
    requires Apply(c, m, Step(t, x)).Some?
    ensures LeaderExplained(c, s, actions, t, k, f, from', Apply(c, m, Step(t, x)).value)
  {
    var pc := m.threads[t];
    from' := from;
    assert pc.Leading?;
    if LocalStage(c, m.clock, m.store, k, pc.background, pc.stage, x).Some? {
      StageLocal(c, s, actions, t, k, from, m, pc, x);
      from' := OriginOn(m, k, pc.stage, |actions| - 1, from);
      hide StageExplained, OriginOn, LocalStage, Exec;
    } else if pc.stage.SetWrite? {
      StageWrites(c, s, actions, t, k, from, m, pc, x);
      from' := OriginOn(m, k, pc.stage, |actions| - 1, from);
      hide StageExplained, OriginOn, Apply, Exec;
    } else {
      hide LeaderExplained, SharedStage, Exec;
      LeaderFinishes(c, s, actions, t, k, f, from, m, x);
    }
  }

  /** A step of anybody else. */
  lemma LeaderLeft<K, C, V, E, P>(c: Config, s: World<K, C, V, E, P>, actions: seq<Action<K, C, V, E, P>>, t: Tid,
                                  k: K, f: nat, from: Origin<V>, m: World<K, C, V, E, P>)
    requires actions != [] && Safe(m) && LeaderExplained(c, s, actions[..|actions| - 1], t, k, f, from, m)
    requires var a := actions[|actions| - 1]; Apply(c, m, a).Some? && !(a.Step? && a.t == t)
    ensures LeaderExplained(c, s, actions, t, k, f, from, Apply(c, m, actions[|actions| - 1]).value)
  {
    OthersLeave(c, m, actions[|actions| - 1], t);
    StepEvolves(c, m, actions[|actions| - 1]);
    hide Apply, Safe, StageExplained, OutcomeExplained;
    if m.threads[t].Leading? {
      StageLonger(c, s, actions, t, k, from, m.threads[t].stage);
    } else {
      OutcomeLonger(c, s, actions, t, k, from, m.table.flights[f].outcome.value);
    }
  }

  lemma {:induction false} LeaderRun<K, C, V, E, P>(c: Config, s: World<K, C, V, E, P>,
                                                    actions: seq<Action<K, C, V, E, P>>, t: Tid, k: K, f: nat)
    returns (from: Origin<V>)
    requires Safe(s) && t in s.threads && s.threads[t].Leading? && s.threads[t].key == k && s.threads[t].flight == f
    requires s.threads[t].stage.RecheckClock? || s.threads[t].stage.Begin?
    requires Exec(c, s, actions).Some?
    ensures LeaderExplained(c, s, actions, t, k, f, from, Exec(c, s, actions).value)
  {
    if actions == [] {
      from := Origin(Course(0, 0, 0, 0, None, 0), 0, 0, 0, 0);
    } else {
      var n := |actions| - 1;
      var m, a := Exec(c, s, actions[..n]).value, actions[n];
      from := LeaderRun(c, s, actions[..n], t, k, f);
      ExecEvolves(c, s, actions[..n]);
      if a.Step? && a.t == t {
        assert ThreadOk(m, t);
        hide LeaderExplained, Apply, Safe;
        from := LeaderStep(c, s, actions, t, k, f, from, m, a.choice);
      } else {
        hide LeaderExplained, Apply, Safe;
        LeaderLeft(c, s, actions, t, k, f, from, m);
      }
    }
  }

  /** Every outcome that a flight has, on any run since its leader t has begun: what the leader has read,
      computed and written, or what has failed. */
  lemma LeaderFate<K, C, V, E, P>(c: Config, s: World<K, C, V, E, P>, actions: seq<Action<K, C, V, E, P>>, t: Tid)
    returns (from: Origin<V>)
    requires Safe(s) && t in s.threads && s.threads[t].Leading?
    requires s.threads[t].stage.RecheckClock? || s.threads[t].stage.Begin?
    requires Exec(c, s, actions).Some?
    ensures var k, f := s.threads[t].key, s.threads[t].flight; var flights := Exec(c, s, actions).value.table.flights;
            f < |flights| && (flights[f].outcome.Some? ==>
                                OutcomeExplained(c, s, actions, t, k, from, flights[f].outcome.value))
  {
    var k, f := s.threads[t].key, s.threads[t].flight;
    var s' := Exec(c, s, actions).value;
    from := LeaderRun(c, s, actions, t, k, f);
    ExecEvolves(c, s, actions);
    assert ThreadOk(s', t);
    hide Safe, Exec, Evolves, LeaderExplained, ThreadOk, OutcomeExplained;
    LeaderOutcome(c, s, actions, t, k, f, from, s');
  }

  lemma LeaderOutcome<K, C, V, E, P>(c: Config, s: World<K, C, V, E, P>, actions: seq<Action<K, C, V, E, P>>, t: Tid,
                                     k: K, f: nat, from: Origin<V>, s': World<K, C, V, E, P>)
    requires LeaderExplained(c, s, actions, t, k, f, from, s') && ThreadOk(s', t)
    ensures f < |s'.table.flights| && (s'.table.flights[f].outcome.Some? ==>
                                         OutcomeExplained(c, s, actions, t, k, from, s'.table.flights[f].outcome.value))
  {
    hide OutcomeExplained;
  }

  /** Calls can begin at any time, in a thread of their own. */
  lemma AnyoneCanCall<K, C, V, E, P>(c: Config, s: World<K, C, V, E, P>, t: Tid, k: K, fn: C, v: V)
    ensures !s.crashed && t !in s.threads ==>
              && Apply(c, s, Call(t, k, fn)).Some? && Apply(c, s, CallGet(t, k)).Some?
              && Apply(c, s, CallSet(t, k, v)).Some?
  {
  }

  /** Windows are what leaders record when they write, and nothing else. */
  lemma WindowsAreRecorded<K, C, V, E, P>(c: Config, s: World<K, C, V, E, P>, a: Action<K, C, V, E, P>)
    requires Apply(c, s, a).Some?
    ensures var windows := Apply(c, s, a).value.windows;
            || windows == s.windows
            || (a.Step? && a.choice.Go? && a.t in s.threads && s.threads[a.t].Leading?
                && s.threads[a.t].stage.SetWrite? && |windows| == |s.windows| + 1)
  {
  }

  /** The leader goes on to publish the outcome. */
  predicate Becomes<K(==), C(==), V(==), E(==), P(==)>(
      next: Option<World<K, C, V, E, P>>, t: Tid, pc: PC<K, C, V, E, P>, o: Outcome<V, E, P>)
    requires pc.Leading?
  {
    next.Some? && t in next.value.threads && next.value.threads[t] == pc.(stage := Publishing(o))
  }

  /** A leader's store may fail whenever it is read or written, and its computation may end in any way;
      the leader then publishes that failure. */
  lemma AnythingCanHappen<K, C, V, E, P>(c: Config, s: World<K, C, V, E, P>, t: Tid, o: Outcome<V, E, P>, v: V, e: E,
                                         wrote: bool)
    requires !s.crashed && Safe(s) && t in s.threads && s.threads[t].Leading?
    ensures var pc := s.threads[t];
            match pc.stage
            case RecheckFresh(_) => Becomes(Apply(c, s, Step(t, StoreFails(v, e))), t, pc, Err(v, e))
            case RecheckEntry(_) => Becomes(Apply(c, s, Step(t, StoreFails(v, e))), t, pc, Err(v, e))
            case SetWrite(_, w, _) => Becomes(Apply(c, s, Step(t, WriteFails(e, wrote))), t, pc, Err(w, e))
            case Computing(_) =>
              && Apply(c, s, Step(t, Yields(o))).Some?
              && (!o.Ok? && !(o.Panic? && pc.background) ==> Becomes(Apply(c, s, Step(t, Yields(o))), t, pc, o))
            case _ => true
  {
    assert ThreadOk(s, t);
  }

  // ---------- Get ----------

  ghost predicate GetExplained<K, C, V, E, P>(c: Config, s: World<K, C, V, E, P>, actions: seq<Action<K, C, V, E, P>>,
                                              t: Tid, k: K, how: Course<V>, pc: PC<K, C, V, E, P>) {
    pc.key == k &&
    match pc
    case GetClock(_) => !c.bypass
    case GetFresh(_, now) => !c.bypass && Clocked(c, s, actions, t, how) && now == how.now
    case GetEntry(_, now) => !c.bypass && Clocked(c, s, actions, t, how) && now == how.now
    case GetDone(_, found, failure) =>
      if c.bypass then found == None && failure == None
      else
        || (failure == None && Saw(c, s, actions, t, k, how)
            && found == if Finds(how, Fresh) then Some(how.found.value.value) else None)
        || (found == None && StepOf(actions, t, how.readAt) && actions[how.readAt].choice.StoreFails?
            && failure == Some(actions[how.readAt].choice.error))
    case _ => false
  }

  lemma GetStep<K, C, V, E, P>(c: Config, s: World<K, C, V, E, P>, actions: seq<Action<K, C, V, E, P>>, t: Tid, k: K,
                               how: Course<V>, m: World<K, C, V, E, P>, x: Choice<V, E, P>)
    returns (how': Course<V>)
    requires actions != [] && actions[|actions| - 1] == Step(t, x) && Exec(c, s, actions[..|actions| - 1]) == Some(m)
    requires t in m.threads && GetExplained(c, s, actions[..|actions| - 1], t, k, how, m.threads[t])
    requires Apply(c, m, Step(t, x)).Some?
    ensures var m' := Apply(c, m, Step(t, x)).value;
            t in m'.threads && GetExplained(c, s, actions, t, k, how', m'.threads[t])
  {
    var n := |actions| - 1;
    var pc := m.threads[t];
    how' := if pc.GetClock? then how.(clockAt := n, now := m.clock) else how.(readAt := n, found := Find(m.store, k));
    if pc.GetClock? {
      ClockNow(c, s, actions, t, how, m);
    } else if x.Go? {
      ReadNow(c, s, actions, t, k, how, m);
    } else {
      assert x.StoreFails? ==> StepOf(actions, t, n);
    }
    hide Exec, Clocked, Saw;
  }

  lemma GetLonger<K, C, V, E, P>(c: Config, s: World<K, C, V, E, P>, actions: seq<Action<K, C, V, E, P>>, t: Tid,
                                 k: K, how: Course<V>, pc: PC<K, C, V, E, P>)
    requires actions != [] && GetExplained(c, s, actions[..|actions| - 1], t, k, how, pc)
    ensures GetExplained(c, s, actions, t, k, how, pc)
  {
    SawLonger(c, s, actions, t, k, how);
    hide Clocked, Saw;
  }

  /** Every `Get`, on every run: it finds a value exactly if its one decisive reading of the store shows an
      entry that is fresh by its clock reading, unless the store fails it. */
  lemma {:induction false} GetFate<K, C, V, E, P>(c: Config, before: World<K, C, V, E, P>, s: World<K, C, V, E, P>,
                                                  actions: seq<Action<K, C, V, E, P>>, t: Tid, k: K)
    returns (how: Course<V>)
    requires Apply(c, before, CallGet(t, k)) == Some(s)
    requires Exec(c, s, actions).Some?
    ensures var s' := Exec(c, s, actions).value;
            t in s'.threads && GetExplained(c, s, actions, t, k, how, s'.threads[t])
  {
    if actions == [] {
      how := Course(0, 0, 0, 0, None, 0);
    } else {
      var n := |actions| - 1;
      var m, a := Exec(c, s, actions[..n]).value, actions[n];
      how := GetFate(c, before, s, actions[..n], t, k);
      hide GetExplained, Apply;
      if a.Step? && a.t == t {
        how := GetStep(c, s, actions, t, k, how, m, a.choice);
      } else {
        OthersLeave(c, m, a, t);
        GetLonger(c, s, actions, t, k, how, m.threads[t]);
      }
    }
  }

  // ---------- Set ----------

  ghost predicate SetExplained<K, C, V, E, P>(c: Config, s: World<K, C, V, E, P>, actions: seq<Action<K, C, V, E, P>>,
                                              t: Tid, k: K, v: V, how: Course<V>, pc: PC<K, C, V, E, P>) {
    pc.key == k &&
    match pc
    case PutClock(_, w) => !c.bypass && w == v
    case PutWrite(_, w, now) => !c.bypass && w == v && Clocked(c, s, actions, t, how) && now == how.now
    case PutDone(_, failure) =>
      if c.bypass then failure == None
      else Clocked(c, s, actions, t, how) && how.clockAt < how.readAt && SetWrites(c, s, actions, t, k, v, how, failure)
    case _ => false
  }

  ghost predicate SetWrites<K, C, V, E, P>(c: Config, s: World<K, C, V, E, P>, actions: seq<Action<K, C, V, E, P>>,
                                           t: Tid, k: K, v: V, how: Course<V>, failure: Option<E>) {
    && StepOf(actions, t, how.readAt)
    && var x := actions[how.readAt].choice;
       && (if failure.None? then x.Go? else x.WriteFails? && x.error == failure.value)
       && Writes(c, s, actions, t, k, v, how.now, how.readAt, x)
  }

  lemma SetStep<K, C, V, E, P>(c: Config, s: World<K, C, V, E, P>, actions: seq<Action<K, C, V, E, P>>, t: Tid, k: K,
                               v: V, how: Course<V>, m: World<K, C, V, E, P>, x: Choice<V, E, P>)
    returns (how': Course<V>)
    requires actions != [] && actions[|actions| - 1] == Step(t, x) && Exec(c, s, actions[..|actions| - 1]) == Some(m)
    requires t in m.threads && SetExplained(c, s, actions[..|actions| - 1], t, k, v, how, m.threads[t])
    requires Apply(c, m, Step(t, x)).Some?
    ensures var m' := Apply(c, m, Step(t, x)).value;
            t in m'.threads && SetExplained(c, s, actions, t, k, v, how', m'.threads[t])
  {
    var n := |actions| - 1;
    var pc := m.threads[t];
    if pc.PutClock? {
      how' := how.(clockAt := n, now := m.clock);
      ClockNow(c, s, actions, t, how, m);
    } else {
      how' := how.(readAt := n);
      SawLonger(c, s, actions, t, k, how);
      assert Writes(c, s, actions, t, k, v, how.now, n, x);
    }
    hide Exec, Saw, Writes;
  }

  lemma SetLonger<K, C, V, E, P>(c: Config, s: World<K, C, V, E, P>, actions: seq<Action<K, C, V, E, P>>, t: Tid,
                                 k: K, v: V, how: Course<V>, pc: PC<K, C, V, E, P>)
    requires actions != [] && SetExplained(c, s, actions[..|actions| - 1], t, k, v, how, pc)
    ensures SetExplained(c, s, actions, t, k, v, how, pc)
  {
    SawLonger(c, s, actions, t, k, how);
    if pc.PutDone? && !c.bypass {
      WritesLonger(c, s, actions, t, k, v, how.now, how.readAt, actions[how.readAt].choice);
    }
    hide Clocked, Saw, Writes;
  }

  /** Every `Set`, on every run: once it has returned, it has written the value, sealed at its clock
      reading, with one step that changed nothing else, or that step has failed. */
  lemma {:induction false} SetFate<K, C, V, E, P>(c: Config, before: World<K, C, V, E, P>, s: World<K, C, V, E, P>,
                                                  actions: seq<Action<K, C, V, E, P>>, t: Tid, k: K, v: V)
    returns (how: Course<V>)
    requires Apply(c, before, CallSet(t, k, v)) == Some(s)
    requires Exec(c, s, actions).Some?
    ensures var s' := Exec(c, s, actions).value;
            t in s'.threads && SetExplained(c, s, actions, t, k, v, how, s'.threads[t])
  {
    if actions == [] {
      how := Course(0, 0, 0, 0, None, 0);
    } else {
      var n := |actions| - 1;
      var m, a := Exec(c, s, actions[..n]).value, actions[n];
      how := SetFate(c, before, s, actions[..n], t, k, v);
      hide SetExplained, Apply;
      if a.Step? && a.t == t {
        how := SetStep(c, s, actions, t, k, v, how, m, a.choice);
      } else {
        OthersLeave(c, m, a, t);
        SetLonger(c, s, actions, t, k, v, how, m.threads[t]);
      }
    }
  }
}
