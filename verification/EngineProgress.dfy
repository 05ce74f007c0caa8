/** Every call returns: no reachable state is stuck, and without new calls only finitely many steps
    are possible. Compute functions are assumed to end, one way or another. */
module EngineProgress {
  import opened Flights
  import opened Engine
  import opened EngineSafety

  predicate Returned<K, C, V, E, P>(pc: PC<K, C, V, E, P>) {
    pc.Done? || pc.GetDone? || pc.PutDone?
  }

  /** How many steps a leader still has to take. */
  function StageRank<V, E, P>(stage: Stage<V, E, P>): nat {
    match stage
    case RecheckClock => 10
    case RecheckFresh(_) => 9
    case RecheckEntry(_) => 8
    case Begin => 7
    case Computing(_) => 6
    case SetClock(_, _) => 5
    case SetWrite(_, _, _) => 4
    case Publishing(_) => 3
    case Unregistering(_) => 2
    case Releasing(_) => 1
  }

  /** How many steps a thread can still take, counting those of a refresh it may spawn. */
  function Rank<K, C, V, E, P>(pc: PC<K, C, V, E, P>): nat {
    match pc
    case AtClock(_, _) => 15
    case AtFresh(_, _, _) => 14
    case AtLookup(_, _, _) => 13
    case AtEntry(_, _, _) => 12
    case AtDo(_, _, _) => 11
    case AtRefresh(_, _, _) => 8
    case Leading(_, _, _, _, _, stage) => StageRank(stage)
    case Waiting(_, _, _) => 1
    case AtBypass(_, _) => 1
    case GetClock(_) => 3
    case GetFresh(_, _) => 2
    case GetEntry(_, _) => 1
    case PutClock(_, _) => 2
    case PutWrite(_, _, _) => 1
    case _ => 0
  }

  ghost function Total<K, C, V, E, P>(threads: map<Tid, PC<K, C, V, E, P>>, ts: set<Tid>): nat
    requires ts <= threads.Keys
  {
    if ts == {} then 0
    else
      var t :| t in ts;
      Rank(threads[t]) + Total(threads, ts - {t})
  }

  ghost function Measure<K, C, V, E, P>(s: World<K, C, V, E, P>): nat {
    if s.crashed then 0 else 1 + Total(s.threads, s.threads.Keys)
  }

  lemma {:induction false} TotalTakeOut<K, C, V, E, P>(threads: map<Tid, PC<K, C, V, E, P>>, ts: set<Tid>, t: Tid)
    requires ts <= threads.Keys && t in ts
    ensures Total(threads, ts) == Rank(threads[t]) + Total(threads, ts - {t})
    decreases |ts|
  {
    var u :| u in ts && Total(threads, ts) == Rank(threads[u]) + Total(threads, ts - {u});
    if u != t {
      TotalTakeOut(threads, ts - {u}, t);
      TotalTakeOut(threads, ts - {t}, u);
      assert ts - {u} - {t} == ts - {t} - {u};
    }
  }

  lemma {:induction false} TotalSame<K, C, V, E, P>(a: map<Tid, PC<K, C, V, E, P>>, b: map<Tid, PC<K, C, V, E, P>>,
                                                    ts: set<Tid>)
    requires ts <= a.Keys && ts <= b.Keys && forall t | t in ts :: a[t] == b[t]
    ensures Total(a, ts) == Total(b, ts)
    decreases |ts|
  {
    if ts != {} {
      var t :| t in ts;
      TotalTakeOut(a, ts, t);
      TotalTakeOut(b, ts, t);
      TotalSame(a, b, ts - {t});
    }
  }

  lemma TotalGoto<K, C, V, E, P>(threads: map<Tid, PC<K, C, V, E, P>>, t: Tid, pc: PC<K, C, V, E, P>)
    ensures var threads' := threads[t := pc];
            Total(threads', threads'.Keys) ==
              Total(threads, threads.Keys) + Rank(pc) - (if t in threads then Rank(threads[t]) else 0)
  {
    var threads' := threads[t := pc];
    TotalTakeOut(threads', threads'.Keys, t);
    if t in threads {
      TotalTakeOut(threads, threads.Keys, t);
      assert threads'.Keys - {t} == threads.Keys - {t};
    } else {
      assert threads'.Keys - {t} == threads.Keys;
    }
    TotalSame(threads, threads', threads'.Keys - {t});
  }

  lemma LocalRank<K, C, V, E, P>(c: Config, s: World<K, C, V, E, P>, pc: PC<K, C, V, E, P>, x: Choice<V, E, P>)
    requires Local(c, s, pc, x).Some?
    ensures Rank(Local(c, s, pc, x).value) < Rank(pc)
  {
  }

  /** Every step of a thread brings the end nearer. */
  lemma StepDecreases<K, C, V, E, P>(c: Config, s: World<K, C, V, E, P>, t: Tid, x: Choice<V, E, P>)
    requires Apply(c, s, Step(t, x)).Some?
    ensures Measure(Apply(c, s, Step(t, x)).value) < Measure(s)
  {
    var s' := Apply(c, s, Step(t, x)).value;
    if Local(c, s, s.threads[t], x).Some? {
      LocalRank(c, s, s.threads[t], x);
      hide Local;
      TotalGoto(s.threads, t, Local(c, s, s.threads[t], x).value);
    } else {
      hide Local;
      SharedDecreases(c, s, t, x);
    }
  }

  lemma SharedRank<K, C, V, E, P>(c: Config, s: World<K, C, V, E, P>, t: Tid, x: Choice<V, E, P>)
    requires t in s.threads && Shared(c, s, t, s.threads[t], x).Some? && !s.threads[t].AtRefresh?
    ensures var s' := Shared(c, s, t, s.threads[t], x).value;
            s'.crashed || (t in s'.threads && s'.threads == s.threads[t := s'.threads[t]]
                           && Rank(s'.threads[t]) < Rank(s.threads[t]))
  {
  }

  lemma SharedDecreases<K, C, V, E, P>(c: Config, s: World<K, C, V, E, P>, t: Tid, x: Choice<V, E, P>)
    requires !s.crashed && t in s.threads && Shared(c, s, t, s.threads[t], x).Some?
    ensures Measure(Shared(c, s, t, s.threads[t], x).value) < Measure(s)
  {
    hide Total;
    var s' := Shared(c, s, t, s.threads[t], x).value;
    if s.threads[t].AtRefresh? {
      TotalGoto(s.threads, t, s'.threads[t]);
      TotalGoto(s.threads[t := s'.threads[t]], x.child, s'.threads[x.child]);
    } else {
      SharedRank(c, s, t, x);
      hide Shared, SharedStage;
      if !s'.crashed {
        TotalGoto(s.threads, t, s'.threads[t]);
      }
    }
  }

  /** The number of steps that threads take. */
  function StepCount<K, C, V, E, P>(actions: seq<Action<K, C, V, E, P>>): nat {
    if actions == [] then 0
    else StepCount(actions[..|actions| - 1]) + if actions[|actions| - 1].Step? then 1 else 0
  }

  /** Without new calls, threads can take only finitely many steps, however the clock moves and
      whatever the store loses meanwhile. */
  lemma {:induction false} StepsAreBounded<K, C, V, E, P>(
      c: Config, s: World<K, C, V, E, P>, actions: seq<Action<K, C, V, E, P>>)
    requires Exec(c, s, actions).Some?
    requires forall i | 0 <= i < |actions| :: actions[i].Step? || actions[i].Tick? || actions[i].Remove?
    ensures StepCount(actions) + Measure(Exec(c, s, actions).value) <= Measure(s)
  {
    if actions != [] {
      var before, a := actions[..|actions| - 1], actions[|actions| - 1];
      StepsAreBounded(c, s, before);
      if a.Step? {
        StepDecreases(c, Exec(c, s, before).value, a.t, a.choice);
      }
    }
  }

  lemma FreshThread<K, C, V, E, P>(threads: map<Tid, PC<K, C, V, E, P>>) returns (t: Tid)
    ensures t !in threads
  {
    t := FreshNat(threads.Keys);
  }

  lemma {:induction false} FreshNat(ts: set<nat>) returns (t: nat)
    ensures forall u | u in ts :: u < t
    decreases |ts|
  {
    t := 0;
    if ts != {} {
      var u :| u in ts;
      t := FreshNat(ts - {u});
      t := if u < t then t else u + 1;
      assert ts == (ts - {u}) + {u};
    }
  }

  /** A thread that has not returned can take a step, unless it waits for an unfinished flight.
      `o` is how a compute function ends if the step is one. */
  lemma OwnStep<K, C, V, E, P>(c: Config, s: World<K, C, V, E, P>, t: Tid, o: Outcome<V, E, P>)
    returns (x: Choice<V, E, P>)
    requires !s.crashed && Safe(s) && t in s.threads && !Returned(s.threads[t])
    requires s.threads[t].Waiting? ==> s.table.flights[s.threads[t].flight].pending == 0
    ensures Apply(c, s, Step(t, x)).Some?
  {
    var pc := s.threads[t];
    assert ThreadOk(s, t);
    if pc.Waiting? {
      assert FlightOk(s, pc.flight);
    }
    hide Safe;
    x := Go;
    if pc.AtBypass? || (pc.Leading? && pc.stage.Computing?) {
      x := Yields(o);
    } else if pc.AtRefresh? && pc.key !in s.table.registered {
      var child := FreshThread(s.threads);
      x := Spawns(child);
    }
  }

  /** No deadlock: while a call has not returned, some thread can take a step. A waiter waits for
      a flight whose leader does not wait. */
  lemma NeverStuck<K, C, V, E, P>(c: Config, s: World<K, C, V, E, P>, t: Tid, o: Outcome<V, E, P>)
    returns (u: Tid, x: Choice<V, E, P>)
    requires !s.crashed && Safe(s) && t in s.threads && !Returned(s.threads[t])
    ensures Apply(c, s, Step(u, x)).Some?
    ensures s.threads[t].Waiting? && s.table.flights[s.threads[t].flight].pending != 0 ==>
              u in s.threads && s.threads[u].Leading? && s.threads[u].flight == s.threads[t].flight
  {
    u := t;
    assert ThreadOk(s, t);
    if s.threads[t].Waiting? && s.table.flights[s.threads[t].flight].pending != 0 {
      assert FlightOk(s, s.threads[t].flight);
      u := s.table.flights[s.threads[t].flight].leader;
    }
    x := OwnStep(c, s, u, o);
  }

  ghost predicate AllReturned<K, C, V, E, P>(s: World<K, C, V, E, P>) {
    forall t | t in s.threads :: Returned(s.threads[t])
  }

  /** Neither an error nor a panic leaves a key behind: a registered key has a live leader. */
  lemma RegisteredKeyHasLeader<K, C, V, E, P>(s: World<K, C, V, E, P>, k: K) returns (t: Tid)
    requires Safe(s) && k in s.table.registered
    ensures t in s.threads && s.threads[t].Leading? && s.threads[t].key == k
  {
    assert RegisteredOk(s, k);
    t := s.table.flights[s.table.registered[k]].leader;
  }

  lemma RegisteredUnreturned<K, C, V, E, P>(s: World<K, C, V, E, P>)
    requires Safe(s) && s.table.registered != map[]
    ensures !AllReturned(s)
  {
    assert s.table.registered.Keys != {};
    var k :| k in s.table.registered;
    var t := RegisteredKeyHasLeader(s, k);
  }

  lemma NothingRegistered<K, C, V, E, P>(s: World<K, C, V, E, P>)
    requires Safe(s) && AllReturned(s)
    ensures s.table.registered == map[]
  {
    hide Safe, AllReturned;
    if s.table.registered != map[] {
      RegisteredUnreturned(s);
    }
  }

  /** When all calls have returned no key is left registered and no flight unreleased. */
  lemma NothingLeftBehind<K, C, V, E, P>(s: World<K, C, V, E, P>)
    requires Safe(s) && AllReturned(s)
    ensures s.table.registered == map[]
    ensures forall f | 0 <= f < |s.table.flights| :: s.table.flights[f].pending == 0 && s.table.flights[f].outcome.Some?
  {
    NothingRegistered(s);
    forall f | 0 <= f < |s.table.flights| ensures s.table.flights[f].pending == 0 && s.table.flights[f].outcome.Some? {
      assert FlightOk(s, f);
    }
  }

  /** From every reachable state the threads can run to the end; and by `StepsAreBounded` and
      `NeverStuck` they do, however they are scheduled. Then every call has returned and no key is
      registered, or a background refresh has panicked and the process is gone. */
  lemma {:induction false} RunsToCompletion<K, C, V, E, P>(c: Config, s: World<K, C, V, E, P>, o: Outcome<V, E, P>)
    returns (actions: seq<Action<K, C, V, E, P>>)
    requires Safe(s)
    ensures forall i | 0 <= i < |actions| :: actions[i].Step?
    ensures Exec(c, s, actions).Some?
    ensures var s' := Exec(c, s, actions).value; s'.crashed || (AllReturned(s') && s'.table.registered == map[])
    decreases Measure(s)
  {
    if s.crashed || AllReturned(s) {
      actions := [];
      if !s.crashed {
        NothingLeftBehind(s);
      }
    } else {
      var t :| t in s.threads && !Returned(s.threads[t]);
      var u, x := NeverStuck(c, s, t, o);
      var a: Action<K, C, V, E, P> := Step(u, x);
      StepDecreases(c, s, u, x);
      ApplyKeepsSafe(c, s, a);
      var rest := RunsToCompletion(c, Apply(c, s, a).value, o);
      ExecCons(c, s, a, rest);
      actions := [a] + rest;
    }
  }

  lemma {:induction false} ExecCons<K, C, V, E, P>(c: Config, s: World<K, C, V, E, P>, a: Action<K, C, V, E, P>,
                                                   rest: seq<Action<K, C, V, E, P>>)
    requires Apply(c, s, a).Some?
    ensures Exec(c, s, [a] + rest) == Exec(c, Apply(c, s, a).value, rest)
  {
    hide Apply;
    if rest == [] {
      assert [a] + rest == [a] && [a][..0] == [];
    } else {
      var n := |rest| - 1;
      ExecCons(c, s, a, rest[..n]);
      assert ([a] + rest)[..n + 1] == [a] + rest[..n];
    }
  }
}
