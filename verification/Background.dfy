/** `Keep`, `Mirror` and their refresh loop as each runs in its own goroutine
    (background/background.go, background/value.go, internal/refreshloop/refreshloop.go), and
    both as runs of the publication protocol. */
module Background {
  import opened Envelope
  import P = Publish

  /** The local value. */
  class Value<V> {
    var v: Option<V>

    constructor ()
      ensures v == None
    {
      v := None;
    }

    /** `zero` stands for Go's zero value of the type. */
    method Get(zero: V) returns (r: V)
      ensures v.Some? ==> r == v.value
      ensures v.None? ==> r == zero
    {
      if v.None? {
        return zero;
      }
      r := v.value;
    }

    method Store(x: V)
      modifies this
      ensures v == Some(x)
    {
      v := Some(x);
    }
  }

  /** The write-through store, reduced to the one key it is used for. */
  class Remote<V> {
    var content: Option<V>

    method Set(x: V, effect: bool)
      modifies this
      ensures content == if effect then Some(x) else old(content)
    {
      if effect {
        content := Some(x);
      }
    }
  }

  /** What one tick of the refresh loop meets: a value and the fate of its write-through, a failed
      load, or a key that the store does not have, which `Mirror` does not report. */
  datatype Tick<+V> = Good(value: V, effect: bool) | Failed | Missing

  /** The values loaded, in order. */
  function Values<V>(ticks: seq<Tick<V>>): (vs: seq<V>)
    ensures |vs| <= |ticks|
  {
    if ticks == [] then []
    else
      var last := ticks[|ticks| - 1];
      Values(ticks[..|ticks| - 1]) + if last.Good? then [last.value] else []
  }

  /** The failed loads other than misses. */
  function Failures<V>(ticks: seq<Tick<V>>): (n: nat)
    ensures n + |Values(ticks)| <= |ticks|
  {
    if ticks == [] then 0 else Failures(ticks[..|ticks| - 1]) + if ticks[|ticks| - 1].Failed? then 1 else 0
  }

  function Last<V>(vs: seq<V>): V
    requires vs != []
  {
    vs[|vs| - 1]
  }

  /** One tick as steps of the protocol. */
  function Steps<V>(writeThrough: bool, tick: Tick<V>): seq<P.Step<V>> {
    if !tick.Good? then [P.Load(None)]
    else [P.Load(Some(tick.value)), P.WriterStore] + if writeThrough then [P.WriteThrough(tick.effect)] else []
  }

  function AllSteps<V>(writeThrough: bool, ticks: seq<Tick<V>>): seq<P.Step<V>> {
    if ticks == [] then [] else AllSteps(writeThrough, ticks[..|ticks| - 1]) + Steps(writeThrough, ticks[|ticks| - 1])
  }

  /** Handling a tick is a run of the protocol that adds at most one value, stores it locally and
      then, if it takes effect, in the register. */
  lemma TickRuns<V>(w: P.World<V>, tick: Tick<V>)
    requires w.writer.stage.Polling? && (w.writer.local.Some? || tick.Good?)
    ensures P.Exec(w, Steps(w.writeThrough, tick)).Some?
    ensures var w' := P.Exec(w, Steps(w.writeThrough, tick)).value;
            && w'.writer.interval == w.writer.interval && w'.writeThrough == w.writeThrough
            && (!tick.Good? ==> w' == w)
            && (tick.Good? ==>
                  w'.loaded == w.loaded + [tick.value]
                  && w'.writer.stage == P.Next(w.writer)
                  && P.EraseCopy(w'.writer.local) == Some(tick.value)
                  && P.EraseCopy(w'.register) ==
                     if w.writeThrough && tick.effect then Some(tick.value) else P.EraseCopy(w.register))
  {
    if !tick.Good? {
      var one: seq<P.Step<V>> := [P.Load(None)];
      assert one[..0] == [];
      assert P.Exec(w, []) == Some(w);
    } else {
      var two := [P.Load(Some(tick.value)), P.WriterStore];
      assert two[..1] == [P.Load(Some(tick.value))] && two[..1][..0] == [];
      var loaded := P.Apply(w, P.Load(Some(tick.value))).value;
      assert P.Exec(w, two[..1]) == Some(loaded);
      var stored := P.Apply(loaded, P.WriterStore).value;
      assert P.Exec(w, two) == Some(stored);
      if w.writeThrough {
        var three := two + [P.WriteThrough(tick.effect)];
        assert three[..2] == two;
        assert P.Exec(w, three) == P.Apply(stored, P.WriteThrough(tick.effect));
      } else {
        assert two + [] == two;
      }
    }
  }

  /** The protocol reaches the state of `Keep` by handling `ticks`, and is ready for another, or through
      without a positive interval. */
  ghost predicate Reflects<V>(start: P.World<V>, ticks: seq<Tick<V>>, local: Option<V>, register: Option<V>) {
    var end := P.Exec(start, AllSteps(start.writeThrough, ticks));
    && end.Some?
    && end.value.loaded == start.loaded + Values(ticks)
    && P.EraseCopy(end.value.writer.local) == local
    && (start.writeThrough ==> P.EraseCopy(end.value.register) == register)
    && end.value.writeThrough == start.writeThrough && end.value.writer.interval == start.writer.interval
    && if Values(ticks) == [] || 0 < start.writer.interval then end.value.writer.stage.Polling?
       else end.value.writer.stage.Stopped?
  }

  lemma ValuesTick<V>(ticks: seq<Tick<V>>, tick: Tick<V>)
    ensures Values(ticks + [tick]) == Values(ticks) + if tick.Good? then [tick.value] else []
    ensures Failures(ticks + [tick]) == Failures(ticks) + if tick.Failed? then 1 else 0
  {
    assert (ticks + [tick])[..|ticks|] == ticks;
  }

  lemma ReflectsTick<V>(start: P.World<V>, ticks: seq<Tick<V>>, local: Option<V>, register: Option<V>, tick: Tick<V>)
    requires Reflects(start, ticks, local, register)
    requires (ticks == [] || 0 < start.writer.interval) && (local.Some? || tick.Good?)
    ensures Reflects(start, ticks + [tick],
                     if tick.Good? then Some(tick.value) else local,
                     if tick.Good? && tick.effect then Some(tick.value) else register)
  {
    var m := P.Exec(start, AllSteps(start.writeThrough, ticks)).value;
    ExecTick(start, ticks, m, tick);
    TickRuns(m, tick);
    ValuesTick(ticks, tick);
    hide P.Exec, Steps, AllSteps, Values;
    assert m.loaded + [] == m.loaded;
    if tick.Good? {
      assert start.loaded + Values(ticks) + [tick.value] == start.loaded + (Values(ticks) + [tick.value]);
    }
  }

  lemma ExecTick<V>(start: P.World<V>, ticks: seq<Tick<V>>, m: P.World<V>, tick: Tick<V>)
    requires P.Exec(start, AllSteps(start.writeThrough, ticks)) == Some(m)
    ensures P.Exec(start, AllSteps(start.writeThrough, ticks + [tick])) == P.Exec(m, Steps(start.writeThrough, tick))
  {
    hide P.Exec, Steps;
    assert (ticks + [tick])[..|ticks|] == ticks;
    P.ExecSplit(start, AllSteps(start.writeThrough, ticks), m, Steps(start.writeThrough, tick));
  }

  lemma StartReflects<V>(start: P.World<V>, register: Option<V>, first: Tick<V>)
    requires P.Fresh(start.writer) && first.Good? && (start.writeThrough ==> P.EraseCopy(start.register) == register)
    ensures Reflects(start, [first], Some(first.value), if first.effect then Some(first.value) else register)
    ensures Values([first]) == [first.value] && Failures([first]) == 0
  {
    ValuesTick([], first);
    assert [] + [first] == [first];
    assert start.loaded + Values<V>([]) == start.loaded;
    assert Reflects(start, [], None, register);
    ReflectsTick(start, [], None, register, first);
  }

  function Content<V>(remote: Remote?<V>): Option<V>
    reads remote
  {
    if remote == null then None else remote.content
  }

  /** One round of the hooks `Keep` gives to the refresh loop: the local value first, then
      `onRefresh`, then the write-through, whose error is ignored. */
  method OnValue<V>(val: Value<V>, x: V, effect: bool, refreshed: seq<V>, remote: Remote?<V>) returns (seen: seq<V>)
    modifies val, remote
    ensures val.v == Some(x) && seen == refreshed + [x]
    ensures remote != null ==> remote.content == if effect then Some(x) else old(remote.content)
  {
    val.Store(x);
    seen := refreshed + [x];
    if remote != null {
      remote.Set(x, effect);
    }
  }

  /** One tick of the refresh loop of `Keep`, after the ticks `done`. */
  method OnTick<V>(val: Value<V>, tick: Tick<V>, refreshed: seq<V>, errors: nat, remote: Remote?<V>,
                   ghost start: P.World<V>, ghost done: seq<Tick<V>>)
    returns (refreshed': seq<V>, errors': nat)
    requires start.writeThrough == (remote != null) && 0 < start.writer.interval
    requires Reflects(start, done, val.v, Content(remote)) && val.v.Some?
    requires refreshed == Values(done) && refreshed != [] && val.v == Some(Last(refreshed))
    modifies val, remote
    ensures Reflects(start, done + [tick], val.v, Content(remote))
    ensures refreshed' == Values(done + [tick]) && refreshed' != [] && val.v == Some(Last(refreshed'))
    ensures errors' + |refreshed'| == errors + |refreshed| + 1
  {
    refreshed', errors' := refreshed, errors;
    ReflectsTick(start, done, val.v, Content(remote), tick);
    ValuesTick(done, tick);
    hide P.Exec, Values, AllSteps;
    if tick.Good? {
      refreshed' := OnValue(val, tick.value, tick.effect, refreshed, remote);
    } else {
      errors' := errors + 1;
    }
  }

  /** `Keep`: nothing happens unless the first load succeeds; after that the local value is always
      the last one loaded, `onRefresh` has seen every loaded value once and in order and `onError`
      every failure, and the run is one of the protocol. With a positive interval every tick is handled,
      without one none is. The loop ends with its context, here when the ticks are used up. `start` is
      the protocol state before the call. */
  method Keep<V>(first: Tick<V>, interval: int, ticks: seq<Tick<V>>, remote: Remote?<V>, ghost start: P.World<V>)
    returns (val: Value?<V>, refreshed: seq<V>, errors: nat)
    requires P.Fresh(start.writer) && start.writer.interval == interval
    requires start.writeThrough == (remote != null)
    requires remote != null ==> P.EraseCopy(start.register) == remote.content
    modifies remote
    ensures (val == null) == !first.Good?
    ensures val == null ==> refreshed == [] && errors == 0 && (remote != null ==> remote.content == old(remote.content))
    ensures val != null ==>
              var all := if 0 < interval then [first] + ticks else [first];
              && fresh(val)
              && refreshed == Values(all) && refreshed != [] && val.v == Some(Last(refreshed))
              && errors == |all| - |refreshed|
              && Reflects(start, all, val.v, Content(remote))
  {
    val, refreshed, errors := null, [], 0;
    if !first.Good? {
      return;
    }
    ghost var before := Content(remote);
    val := new Value();
    refreshed := OnValue(val, first.value, first.effect, [], remote);
    StartReflects(start, before, first);
    if interval <= 0 {
      return;
    }
    hide Reflects, Values;
    assert [first] + ticks[..0] == [first];
    for i := 0 to |ticks|
      invariant refreshed == Values([first] + ticks[..i]) && refreshed != [] && val.v == Some(Last(refreshed))
      invariant errors + |refreshed| == 1 + i
      invariant Reflects(start, [first] + ticks[..i], val.v, Content(remote))
    {
      assert [first] + ticks[..i] + [ticks[i]] == [first] + ticks[..i + 1];
      refreshed, errors := OnTick(val, ticks[i], refreshed, errors, remote, start, [first] + ticks[..i]);
    }
    assert ticks[..|ticks|] == ticks;
  }

  // ---------- the reader ----------

  /** A poll of reader i as steps of the protocol. */
  function PollSteps<V>(i: nat, poll: Tick<V>): seq<P.Step<V>> {
    if poll.Good? then [P.Poll(i, false), P.ReaderStore(i)] else [P.Poll(i, poll.Failed?)]
  }

  /** A poll, and what all others have done since the one before. */
  datatype Round<V> = Round(others: seq<P.Step<V>>, poll: Tick<V>)

  function Rounds<V>(others: seq<seq<P.Step<V>>>, polls: seq<Tick<V>>): (rounds: seq<Round<V>>)
    requires |others| == |polls|
    ensures |rounds| == |polls|
  {
    seq(|polls|, n requires 0 <= n < |polls| => Round(others[n], polls[n]))
  }

  function Trace<V>(i: nat, rounds: seq<Round<V>>): seq<P.Step<V>> {
    if rounds == [] then []
    else
      var n := |rounds| - 1;
      Trace(i, rounds[..n]) + rounds[n].others + PollSteps(i, rounds[n].poll)
  }

  predicate OfReader<V>(i: nat, step: P.Step<V>) {
    (step.Poll? || step.ReaderStore? || step.ReaderCancel?) && step.reader == i
  }

  /** After `rounds`, the others can do what `round` says, and what the poll then reads is what is in
      the register, unless the read fails. */
  ghost predicate Plausible<V>(start: P.World<V>, i: nat, rounds: seq<Round<V>>, round: Round<V>) {
    var after := P.Exec(start, Trace(i, rounds) + round.others);
    && (forall n | 0 <= n < |round.others| :: !OfReader(i, round.others[n]))
    && after.Some?
    && (round.poll.Good? ==> P.EraseCopy(after.value.register) == Some(round.poll.value))
    && (round.poll.Missing? ==> after.value.register == None)
  }

  ghost predicate PlausibleRun<V>(start: P.World<V>, i: nat, rounds: seq<Round<V>>) {
    forall n | 0 <= n < |rounds| && P.Exec(start, Trace(i, rounds[..n])).Some? ::
      Plausible(start, i, rounds[..n], rounds[n])
  }

  ghost predicate HasRead<V>(rounds: seq<Round<V>>) {
    exists n | 0 <= n < |rounds| :: rounds[n].poll.Good?
  }

  lemma HasReadNext<V>(rounds: seq<Round<V>>, round: Round<V>)
    ensures HasRead(rounds + [round]) <==> HasRead(rounds) || round.poll.Good?
    ensures rounds == [] ==> !HasRead(rounds)
  {
    var longer := rounds + [round];
    assert longer[|rounds|] == round && forall n | 0 <= n < |rounds| :: longer[n] == rounds[n];
  }

  /** The protocol reaches the state of `Mirror` by `rounds`, and is ready for another, or through without a
      positive interval. */
  ghost predicate Mirrors<V>(start: P.World<V>, i: nat, rounds: seq<Round<V>>, local: Option<V>, interval: int) {
    var end := P.Exec(start, Trace(i, rounds));
    && end.Some? && i < |end.value.readers|
    && P.EraseCopy(end.value.readers[i].local) == local
    && end.value.readers[i].interval == interval
    && if !HasRead(rounds) || 0 < interval then end.value.readers[i].stage.Polling?
       else end.value.readers[i].stage.Stopped?
  }

  lemma {:induction false} OthersKeepReader<V>(w: P.World<V>, steps: seq<P.Step<V>>, i: nat)
    requires P.Exec(w, steps).Some? && i < |w.readers| && forall n | 0 <= n < |steps| :: !OfReader(i, steps[n])
    ensures var w' := P.Exec(w, steps).value; i < |w'.readers| && w'.readers[i] == w.readers[i]
  {
    if steps != [] {
      OthersKeepReader(w, steps[..|steps| - 1], i);
    }
  }

  lemma PollRuns<V>(w: P.World<V>, i: nat, poll: Tick<V>)
    requires i < |w.readers| && w.readers[i].stage.Polling? && (w.readers[i].local.Some? || poll.Good?)
    requires poll.Good? ==> P.EraseCopy(w.register) == Some(poll.value)
    requires poll.Missing? ==> w.register == None
    ensures P.Exec(w, PollSteps(i, poll)).Some?
    ensures var w' := P.Exec(w, PollSteps(i, poll)).value;
            && i < |w'.readers| && w'.readers[i].interval == w.readers[i].interval
            && (!poll.Good? ==> w'.readers[i] == w.readers[i])
            && (poll.Good? ==> P.EraseCopy(w'.readers[i].local) == Some(poll.value)
                               && w'.readers[i].stage == P.Next(w.readers[i]))
  {
    var one: seq<P.Step<V>> := [P.Poll(i, poll.Failed?)];
    assert one[..0] == [];
    assert P.Exec(w, one) == P.Apply(w, one[0]);
    if poll.Good? {
      var two: seq<P.Step<V>> := [P.Poll(i, false), P.ReaderStore(i)];
      assert two[..1] == one;
      assert P.Exec(w, two) == P.Apply(P.Exec(w, one).value, P.ReaderStore(i));
    }
  }

  lemma TraceNext<V>(i: nat, rounds: seq<Round<V>>, round: Round<V>)
    ensures Trace(i, rounds + [round]) == Trace(i, rounds) + round.others + PollSteps(i, round.poll)
  {
    assert (rounds + [round])[..|rounds|] == rounds;
  }

  lemma MirrorsRound<V>(start: P.World<V>, i: nat, rounds: seq<Round<V>>, local: Option<V>, interval: int,
                        round: Round<V>)
    requires Mirrors(start, i, rounds, local, interval) && Plausible(start, i, rounds, round)
    requires (rounds == [] || 0 < interval) && (local.Some? || round.poll.Good?)
    ensures Mirrors(start, i, rounds + [round], if round.poll.Good? then Some(round.poll.value) else local, interval)
  {
    hide P.Exec, PollSteps, HasRead, Trace;
    HasReadNext(rounds, round);
    TraceNext(i, rounds, round);
    var before := P.Exec(start, Trace(i, rounds)).value;
    var after := P.Exec(start, Trace(i, rounds) + round.others).value;
    P.ExecSplit(start, Trace(i, rounds), before, round.others);
    OthersKeepReader(before, round.others, i);
    P.ExecSplit(start, Trace(i, rounds) + round.others, after, PollSteps(i, round.poll));
    PollRuns(after, i, round.poll);
  }

  /** One poll of the refresh loop of `Mirror`, after the polls `done`. */
  method OnPoll<V>(val: Value<V>, poll: Tick<V>, refreshed: seq<V>, errors: nat, ghost done: seq<Tick<V>>)
    returns (refreshed': seq<V>, errors': nat)
    requires refreshed == Values(done) && errors == Failures(done)
    requires refreshed != [] && val.v == Some(Last(refreshed))
    modifies val
    ensures refreshed' == Values(done + [poll]) && errors' == Failures(done + [poll])
    ensures refreshed' != [] && val.v == Some(Last(refreshed'))
    ensures val.v == if poll.Good? then Some(poll.value) else old(val.v)
  {
    refreshed', errors' := refreshed, errors;
    ValuesTick(done, poll);
    match poll
    case Good(x, _) =>
      val.Store(x);
      refreshed' := refreshed + [x];
    case Failed =>
      errors' := errors + 1;
    case Missing =>
  }

  /** `Mirror`: the same for reader i, whose loads are reads of the register; a miss is a failed load
      that `onError` does not see. `others[n]` is what happens elsewhere before poll n. */
  method Mirror<V>(first: Tick<V>, interval: int, polls: seq<Tick<V>>, ghost start: P.World<V>, ghost i: nat,
                   ghost others: seq<seq<P.Step<V>>>)
    returns (val: Value?<V>, refreshed: seq<V>, errors: nat)
    requires i < |start.readers| && P.Fresh(start.readers[i]) && start.readers[i].interval == interval
    requires |others| == 1 + |polls| && PlausibleRun(start, i, Rounds(others, [first] + polls))
    ensures (val == null) == !first.Good?
    ensures val == null ==> refreshed == [] && errors == 0
    ensures val != null ==>
              var all := if 0 < interval then [first] + polls else [first];
              && fresh(val)
              && refreshed == Values(all) && refreshed != [] && val.v == Some(Last(refreshed))
              && errors == Failures(all)
              && |all| <= |others| && Mirrors(start, i, Rounds(others[..|all|], all), val.v, interval)
  {
    val, refreshed, errors := null, [], 0;
    if !first.Good? {
      return;
    }
    val := new Value();
    val.Store(first.value);
    refreshed := [first.value];
    ghost var rounds := Rounds(others, [first] + polls);
    StartsMirroring(start, i, rounds, first, interval);
    RoundsPrefix(others, [first] + polls, 1);
    hide Mirrors, PlausibleRun, Values, Failures, P.Fresh, Rounds;
    assert ([first] + polls)[..1] == [first];
    if 0 < interval {
      refreshed, errors := PollLoop(val, [first] + polls, interval, refreshed, start, i, rounds);
      assert others[..|others|] == others;
    }
  }

  /** The refresh loop of `Mirror`, after its first read. */
  method PollLoop<V>(val: Value<V>, polls: seq<Tick<V>>, interval: int, first: seq<V>, ghost start: P.World<V>,
                     ghost i: nat, ghost rounds: seq<Round<V>>)
    returns (refreshed: seq<V>, errors: nat)
    requires 0 < interval && polls != [] && |rounds| == |polls| && PlausibleRun(start, i, rounds)
    requires forall n | 0 <= n < |polls| :: rounds[n].poll == polls[n]
    requires first == Values(polls[..1]) && first != [] && val.v == Some(Last(first)) && Failures(polls[..1]) == 0
    requires Mirrors(start, i, rounds[..1], val.v, interval)
    modifies val
    ensures refreshed == Values(polls) && errors == Failures(polls)
    ensures refreshed != [] && val.v == Some(Last(refreshed)) && Mirrors(start, i, rounds, val.v, interval)
  {
    hide Mirrors, PlausibleRun, Values, Failures;
    refreshed, errors := first, 0;
    for n := 1 to |polls|
      invariant refreshed == Values(polls[..n]) && refreshed != [] && val.v == Some(Last(refreshed))
      invariant errors == Failures(polls[..n])
      invariant Mirrors(start, i, rounds[..n], val.v, interval)
    {
      assert polls[..n] + [polls[n]] == polls[..n + 1];
      NextRound(start, i, rounds, n, val.v, interval);
      refreshed, errors := OnPoll(val, polls[n], refreshed, errors, polls[..n]);
    }
    assert polls[..|polls|] == polls && rounds[..|polls|] == rounds;
  }

  lemma RoundsPrefix<V>(others: seq<seq<P.Step<V>>>, polls: seq<Tick<V>>, n: nat)
    requires n <= |polls| == |others|
    ensures Rounds(others, polls)[..n] == Rounds(others[..n], polls[..n])
  {
  }

  lemma StartsMirroring<V>(start: P.World<V>, i: nat, rounds: seq<Round<V>>, first: Tick<V>, interval: int)
    requires i < |start.readers| && P.Fresh(start.readers[i]) && start.readers[i].interval == interval
    requires rounds != [] && rounds[0].poll == first && first.Good? && PlausibleRun(start, i, rounds)
    ensures Mirrors(start, i, rounds[..1], Some(first.value), interval)
    ensures Values([first]) == [first.value] && Failures([first]) == 0
  {
    ValuesTick([], first);
    assert [] + [first] == [first];
    assert Mirrors(start, i, rounds[..0], None, interval);
    NextRound(start, i, rounds, 0, None, interval);
  }

  lemma PlausibleNext<V>(start: P.World<V>, i: nat, rounds: seq<Round<V>>, n: nat, local: Option<V>, interval: int)
    requires n < |rounds| && PlausibleRun(start, i, rounds) && Mirrors(start, i, rounds[..n], local, interval)
    ensures Plausible(start, i, rounds[..n], rounds[n])
  {
    hide P.Exec, Trace, Plausible;
  }

  lemma NextRound<V>(start: P.World<V>, i: nat, rounds: seq<Round<V>>, n: nat, local: Option<V>, interval: int)
    requires n < |rounds| && PlausibleRun(start, i, rounds) && Mirrors(start, i, rounds[..n], local, interval)
    requires (n == 0 || 0 < interval) && (local.Some? || rounds[n].poll.Good?)
    ensures Mirrors(start, i, rounds[..n + 1],
                    if rounds[n].poll.Good? then Some(rounds[n].poll.value) else local, interval)
  {
    hide *;
    PlausibleNext(start, i, rounds, n, local, interval);
    assert n == 0 ==> rounds[..n] == [];
    MirrorsRound(start, i, rounds[..n], local, interval, rounds[n]);
    assert rounds[..n] + [rounds[n]] == rounds[..n + 1];
  }
}
