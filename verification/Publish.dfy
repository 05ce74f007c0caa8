/** Snapshot publication: one `Keep` writer loads values and writes them through to a shared
    register, which any number of `Mirror` readers poll (background/background.go,
    internal/refreshloop/refreshloop.go). Every access to the register or to a local value is one
    atomic step, and steps of different goroutines interleave freely. */
module Publish {
  import opened Envelope

  /** A value together with its position among all values the writer has loaded. Steps only ever
      copy the position along with the value. */
  datatype Copy<V> = Copy(value: V, at: nat)

  datatype Stage<V> =
    | Polling               // waiting for a tick, or before the first load
    | Storing(held: Copy<V>)
    | Writing(held: Copy<V>)  // the writer only: local value stored, write-through next
    | Stopped

  /** A goroutine with its local `Value`, which is unset until the first successful load. */
  datatype Process<V> = Process(stage: Stage<V>, local: Option<Copy<V>>, interval: int)

  datatype World<V> = World(
    loaded: seq<V>,               // all values the writer has loaded successfully
    writeThrough: bool,
    writer: Process<V>,
    register: Option<Copy<V>>,
    readers: seq<Process<V>>)

  datatype Step<V> =
    | Load(result: Option<V>)     // the writer's load; None is an error
    | WriterStore
    | WriteThrough(effect: bool)  // the error is ignored, so only the effect on the register counts
    | WriterCancel
    | Lose                        // the store evicts or expires the entry
    | Poll(reader: nat, fails: bool)
    | ReaderStore(reader: nat)
    | ReaderCancel(reader: nat)

  /** Where a process goes once it is through with a value: a loop without a positive interval ends. */
  function Next<V>(p: Process<V>): Stage<V> {
    if p.interval <= 0 then Stopped else Polling
  }

  /** A load that yields nothing: fatal for the first one, otherwise without effect. */
  function Missed<V>(p: Process<V>): Process<V> {
    if p.local.None? then p.(stage := Stopped) else p
  }

  function Cancelled<V>(p: Process<V>): Option<Process<V>> {
    if p.stage.Polling? && p.local.Some? then Some(p.(stage := Stopped)) else None
  }

  function ReaderStep<V>(p: Process<V>, register: Option<Copy<V>>, step: Step<V>): Option<Process<V>> {
    match step
    case Poll(_, fails) =>
      if !p.stage.Polling? then None
      else if fails || register.None? then Some(Missed(p))
      else Some(p.(stage := Storing(register.value)))
    case ReaderStore(_) =>
      if p.stage.Storing? then Some(p.(stage := Next(p), local := Some(p.stage.held))) else None
    case ReaderCancel(_) => Cancelled(p)
    case _ => None
  }

  /** One step, if it can happen. */
  function Apply<V>(w: World<V>, step: Step<V>): Option<World<V>> {
    var p := w.writer;
    match step
    case Load(result) =>
      if !p.stage.Polling? then None
      else if result.None? then Some(w.(writer := Missed(p)))
      else Some(w.(loaded := w.loaded + [result.value],
                   writer := p.(stage := Storing(Copy(result.value, |w.loaded|)))))
    case WriterStore =>
      if !p.stage.Storing? then None
      else Some(w.(writer := p.(stage := if w.writeThrough then Writing(p.stage.held) else Next(p),
                                local := Some(p.stage.held))))
    case WriteThrough(effect) =>
      if !p.stage.Writing? then None
      else Some(w.(register := if effect then Some(p.stage.held) else w.register, writer := p.(stage := Next(p))))
    case WriterCancel =>
      (match Cancelled(p)
       case None => None
       case Some(stopped) => Some(w.(writer := stopped)))
    case Lose => Some(w.(register := None))
    case _ =>
      if |w.readers| <= step.reader then None
      else
        match ReaderStep(w.readers[step.reader], w.register, step)
        case None => None
        case Some(r) => Some(w.(readers := w.readers[step.reader := r]))
  }

  function Exec<V>(w: World<V>, steps: seq<Step<V>>): Option<World<V>> {
    if steps == [] then Some(w)
    else
      match Exec(w, steps[..|steps| - 1])
      case None => None
      case Some(m) => Apply(m, steps[|steps| - 1])
  }

  predicate Fresh<V>(p: Process<V>) {
    p.stage.Polling? && p.local.None?
  }

  /** Nobody has started. The register may still hold what an earlier writer left there. */
  ghost predicate Initial<V>(w: World<V>) {
    && Fresh(w.writer)
    && (forall i | 0 <= i < |w.readers| :: Fresh(w.readers[i]))
    && (w.register.Some? ==> Genuine(w, w.register.value))
  }

  // ---------- what every run keeps ----------

  ghost predicate Genuine<V>(w: World<V>, c: Copy<V>) {
    c.at < |w.loaded| && w.loaded[c.at] == c.value
  }

  /** The position of a copy, with -1 for none. */
  function At<V>(c: Option<Copy<V>>): (n: int)
    ensures -1 <= n
  {
    if c.None? then -1 else c.value.at
  }

  /** The newest copy a process has. */
  function Newest<V>(p: Process<V>): Option<Copy<V>> {
    if p.stage.Storing? || p.stage.Writing? then Some(p.stage.held) else p.local
  }

  ghost predicate ReaderOk<V>(w: World<V>, p: Process<V>) {
    && !p.stage.Writing?
    && (p.local.Some? ==> Genuine(w, p.local.value))
    && (Newest(p).Some? ==> Genuine(w, Newest(p).value))
    && At(p.local) <= At(Newest(p))
    && (w.register.Some? ==> At(Newest(p)) <= w.register.value.at)
    && (w.writer.local.Some? ==> At(Newest(p)) <= w.writer.local.value.at)
  }

  ghost predicate WriterOk<V>(w: World<V>) {
    var p := w.writer;
    && (p.local.Some? ==> Genuine(w, p.local.value))
    && (p.stage.Storing? ==> Genuine(w, p.stage.held) && At(p.local) < p.stage.held.at == |w.loaded| - 1)
    && (p.stage.Writing? ==> p.local == Some(p.stage.held))
    && (p.local.Some? && !p.stage.Storing? ==> p.local.value.at == |w.loaded| - 1)
    && (w.register.Some? ==> Genuine(w, w.register.value))
    && (w.register.Some? && p.local.Some? ==> w.register.value.at <= p.local.value.at)
  }

  ghost predicate Ok<V>(w: World<V>) {
    WriterOk(w) && forall i | 0 <= i < |w.readers| :: ReaderOk(w, w.readers[i])
  }

  lemma WriterStepOk<V>(w: World<V>, step: Step<V>, w': World<V>)
    requires Ok(w) && Apply(w, step) == Some(w')
    ensures WriterOk(w')
  {
  }

  lemma OwnStepOk<V>(w: World<V>, p: Process<V>, step: Step<V>, q: Process<V>)
    requires WriterOk(w) && ReaderOk(w, p) && ReaderStep(p, w.register, step) == Some(q)
    ensures ReaderOk(w, q)
  {
  }

  /** A reader that does not step is not disturbed by the writer, nor by losing the entry. */
  lemma OthersStepOk<V>(w: World<V>, w': World<V>, p: Process<V>)
    requires ReaderOk(w, p) && WriterOk(w') && w.loaded <= w'.loaded
    requires At(w.writer.local) <= At(w'.writer.local)
    requires w.writer.local.None? && w'.writer.local.Some? ==> |w.loaded| - 1 <= w'.writer.local.value.at
    requires w'.register.Some? ==> w'.register == w.register || |w.loaded| - 1 <= w'.register.value.at
    ensures ReaderOk(w', p)
  {
  }

  /** A step of another process than reader i. */
  lemma ElsewhereOk<V>(w: World<V>, step: Step<V>, w': World<V>, i: nat)
    requires Ok(w) && WriterOk(w') && Apply(w, step) == Some(w') && i < |w.readers|
    requires !((step.Poll? || step.ReaderStore? || step.ReaderCancel?) && step.reader == i)
    ensures |w'.readers| == |w.readers| && ReaderOk(w', w'.readers[i])
  {
    assert ReaderOk(w, w.readers[i]);
    hide ReaderStep, ReaderOk, Genuine;
    assert w'.readers[i] == w.readers[i];
    OthersStepOk(w, w', w.readers[i]);
  }

  lemma OwnPlaceOk<V>(w: World<V>, step: Step<V>, w': World<V>, i: nat)
    requires Ok(w) && Apply(w, step) == Some(w') && i < |w.readers|
    requires (step.Poll? || step.ReaderStore? || step.ReaderCancel?) && step.reader == i
    ensures |w'.readers| == |w.readers| && ReaderOk(w', w'.readers[i])
  {
    var p := w.readers[i];
    assert ReaderOk(w, p);
    hide WriterOk;
    OwnStepOk(w, p, step, w'.readers[i]);
    hide ReaderStep;
    assert ReaderOk(w, w'.readers[i]);
  }

  lemma ReaderStepOk<V>(w: World<V>, step: Step<V>, w': World<V>, i: nat)
    requires Ok(w) && Apply(w, step) == Some(w') && i < |w.readers|
    ensures |w'.readers| == |w.readers| && ReaderOk(w', w'.readers[i])
  {
    WriterStepOk(w, step, w');
    hide Ok, Apply, ReaderOk, WriterOk;
    if (step.Poll? || step.ReaderStore? || step.ReaderCancel?) && step.reader == i {
      OwnPlaceOk(w, step, w', i);
    } else {
      ElsewhereOk(w, step, w', i);
    }
  }

  lemma InitialOk<V>(w: World<V>)
    requires Initial(w)
    ensures Ok(w)
  {
  }

  lemma StepOk<V>(w: World<V>, step: Step<V>, w': World<V>)
    requires Ok(w) && Apply(w, step) == Some(w')
    ensures Ok(w')
  {
    WriterStepOk(w, step, w');
    forall i | 0 <= i < |w'.readers| ensures ReaderOk(w', w'.readers[i]) {
      ReaderStepOk(w, step, w', i);
    }
  }

  lemma {:induction false} ExecOk<V>(w: World<V>, steps: seq<Step<V>>, w': World<V>)
    requires Ok(w) && Exec(w, steps) == Some(w')
    ensures Ok(w')
  {
    if steps != [] {
      var m := Exec(w, steps[..|steps| - 1]).value;
      ExecOk(w, steps[..|steps| - 1], m);
      StepOk(m, steps[|steps| - 1], w');
    }
  }

  // ---------- the theorems ----------

  /** `w'` is later than `w`: no value has gone backwards. */
  ghost predicate Later<V>(w: World<V>, w': World<V>) {
    && w.loaded <= w'.loaded
    && At(w.writer.local) <= At(w'.writer.local)
    && |w.readers| == |w'.readers|
    && forall i | 0 <= i < |w.readers| :: At(w.readers[i].local) <= At(w'.readers[i].local)
  }

  lemma StepLater<V>(w: World<V>, step: Step<V>, w': World<V>)
    requires Ok(w) && Apply(w, step) == Some(w')
    ensures Later(w, w')
  {
    forall i | 0 <= i < |w.readers|
      ensures |w.readers| == |w'.readers| && At(w.readers[i].local) <= At(w'.readers[i].local)
    {
      assert ReaderOk(w, w.readers[i]);
    }
  }

  lemma {:induction false} ExecLater<V>(w: World<V>, steps: seq<Step<V>>, w': World<V>)
    requires Ok(w) && Exec(w, steps) == Some(w')
    ensures Later(w, w')
  {
    if steps != [] {
      var m := Exec(w, steps[..|steps| - 1]).value;
      ExecLater(w, steps[..|steps| - 1], m);
      ExecOk(w, steps[..|steps| - 1], m);
      StepLater(m, steps[|steps| - 1], w');
    }
  }

  /** In every reachable state every local value, the writer's and each reader's, is one the writer
      loaded, and no reader is ahead of the writer. */
  lemma OnlyLoadedValues<V>(w: World<V>, steps: seq<Step<V>>, w': World<V>, i: nat)
    requires Initial(w) && Exec(w, steps) == Some(w') && i < |w'.readers|
    ensures var mine, its := w'.readers[i].local, w'.writer.local;
            && (mine.Some? ==> Genuine(w', mine.value))
            && (its.Some? ==> Genuine(w', its.value))
            && (mine.Some? && its.Some? ==> mine.value.at <= its.value.at)
  {
    InitialOk(w);
    ExecOk(w, steps, w');
    assert ReaderOk(w', w'.readers[i]);
  }

  lemma {:induction false} ExecSplit<V>(w: World<V>, first: seq<Step<V>>, m: World<V>, rest: seq<Step<V>>)
    requires Exec(w, first) == Some(m)
    ensures Exec(w, first + rest) == Exec(m, rest)
  {
    if rest == [] {
      assert first + rest == first;
    } else {
      ExecSplit(w, first, m, rest[..|rest| - 1]);
      assert (first + rest)[..|first + rest| - 1] == first + rest[..|rest| - 1];
    }
  }

  /** Along every run no local value goes back to an earlier one, whatever fails or is lost. */
  lemma NeverBackwards<V>(w: World<V>, first: seq<Step<V>>, m: World<V>, rest: seq<Step<V>>, w': World<V>)
    requires Initial(w) && Exec(w, first) == Some(m) && Exec(w, first + rest) == Some(w')
    ensures Later(m, w')
  {
    ExecSplit(w, first, m, rest);
    InitialOk(w);
    ExecOk(w, first, m);
    ExecLater(m, rest, w');
  }

  /** A step that brings nobody a new value: failed loads and polls, misses, lost entries, the
      write-through, and cancellation. */
  predicate BringsNothing<V>(w: World<V>, step: Step<V>) {
    match step
    case Load(result) => result.None?
    case Poll(_, fails) => fails || w.register.None?
    case WriterStore => false
    case ReaderStore(_) => false
    case _ => true
  }

  /** Failures leave every local value as it was, and those that come after the first value leave
      their goroutine in its loop. */
  lemma FailuresKeepValues<V>(w: World<V>, step: Step<V>, w': World<V>)
    requires Apply(w, step) == Some(w') && BringsNothing(w, step)
    ensures w'.loaded == w.loaded && w'.writer.local == w.writer.local && |w'.readers| == |w.readers|
    ensures forall i | 0 <= i < |w.readers| :: w'.readers[i].local == w.readers[i].local
    ensures step.Load? ==> w'.writer == if w.writer.local.Some? then w.writer else w.writer.(stage := Stopped)
    ensures step.Poll? ==>
              var p := w.readers[step.reader];
              w'.readers == w.readers[step.reader := if p.local.Some? then p else p.(stage := Stopped)]
  {
    if step.Poll? {
      var p := w.readers[step.reader];
      assert w'.readers[step.reader] == Missed(p);
      if p.local.Some? {
        assert w'.readers == w.readers;
      }
    }
  }

  /** A goroutine can be stopped whenever it waits for a tick, and then it stays as it is on every run. */
  lemma CancelIsFinal<V>(w: World<V>, steps: seq<Step<V>>, i: nat)
    requires i < |w.readers|
    ensures w.writer.stage.Polling? && w.writer.local.Some? ==>
              && Apply(w, WriterCancel).Some?
              && var w' := Exec(Apply(w, WriterCancel).value, steps);
                 w'.Some? ==> w'.value.writer == w.writer.(stage := Stopped)
    ensures w.readers[i].stage.Polling? && w.readers[i].local.Some? ==>
              && Apply(w, ReaderCancel(i)).Some?
              && var w' := Exec(Apply(w, ReaderCancel(i)).value, steps);
                 w'.Some? ==> i < |w'.value.readers| && w'.value.readers[i] == w.readers[i].(stage := Stopped)
  {
    if Apply(w, WriterCancel).Some? && Exec(Apply(w, WriterCancel).value, steps).Some? {
      StoppedStays(Apply(w, WriterCancel).value, steps);
    }
    if Apply(w, ReaderCancel(i)).Some? && Exec(Apply(w, ReaderCancel(i)).value, steps).Some? {
      StoppedStays(Apply(w, ReaderCancel(i)).value, steps);
    }
  }

  lemma {:induction false} StoppedStays<V>(w: World<V>, steps: seq<Step<V>>)
    requires Exec(w, steps).Some?
    ensures var w' := Exec(w, steps).value;
            && (w.writer.stage.Stopped? ==> w'.writer == w.writer)
            && |w'.readers| == |w.readers|
            && forall i | 0 <= i < |w.readers| && w.readers[i].stage.Stopped? :: w'.readers[i] == w.readers[i]
  {
    if steps != [] {
      StoppedStays(w, steps[..|steps| - 1]);
    }
  }

  /** After a write-through that took effect, a poll that succeeds before the entry is lost brings
      the reader up to the writer. */
  lemma PollCatchesUp<V>(w: World<V>, steps: seq<Step<V>>, m: World<V>, i: nat, w': World<V>)
    requires Initial(w) && Exec(w, steps) == Some(m) && i < |m.readers|
    requires m.writer.stage.Writing? && m.readers[i].stage.Polling?
    requires Exec(m, [WriteThrough(true), Poll(i, false), ReaderStore(i)]) == Some(w')
    ensures |w'.loaded| != 0 && i < |w'.readers|
    ensures w'.readers[i].local == w'.writer.local == Some(Copy(w'.loaded[|w'.loaded| - 1], |w'.loaded| - 1))
  {
    InitialOk(w);
    ExecOk(w, steps, m);
    var all := [WriteThrough(true), Poll(i, false), ReaderStore(i)];
    assert all[..2] == [WriteThrough(true), Poll(i, false)];
    assert all[..2][..1] == [WriteThrough(true)] && all[..2][..1][..0] == [];
    var written := Apply(m, WriteThrough(true)).value;
    assert Exec(m, all[..2][..1]) == Some(written);
    assert Exec(m, all[..2]) == Apply(written, Poll(i, false));
  }

  // ---------- positions are only watched ----------

  function EraseCopy<V>(c: Option<Copy<V>>): Option<V> {
    if c.None? then None else Some(c.value.value)
  }

  datatype PlainStage<V> = PPolling | PStoring(held: V) | PWriting(held: V) | PStopped

  function EraseStage<V>(s: Stage<V>): PlainStage<V> {
    match s
    case Polling => PPolling
    case Storing(c) => PStoring(c.value)
    case Writing(c) => PWriting(c.value)
    case Stopped => PStopped
  }

  /** Do two processes agree but for positions? */
  ghost predicate SameProcess<V>(p: Process<V>, q: Process<V>) {
    p.interval == q.interval && EraseStage(p.stage) == EraseStage(q.stage) && EraseCopy(p.local) == EraseCopy(q.local)
  }

  ghost predicate SameWorld<V>(w: World<V>, u: World<V>) {
    && w.loaded == u.loaded && w.writeThrough == u.writeThrough && EraseCopy(w.register) == EraseCopy(u.register)
    && SameProcess(w.writer, u.writer)
    && |w.readers| == |u.readers|
    && forall i | 0 <= i < |w.readers| :: SameProcess(w.readers[i], u.readers[i])
  }

  lemma ReaderPositionsDoNotMatter<V>(p: Process<V>, q: Process<V>, register: Option<Copy<V>>, other: Option<Copy<V>>,
                                      step: Step<V>)
    requires SameProcess(p, q) && EraseCopy(register) == EraseCopy(other)
    ensures ReaderStep(p, register, step).Some? == ReaderStep(q, other, step).Some?
    ensures ReaderStep(p, register, step).Some? ==>
              SameProcess(ReaderStep(p, register, step).value, ReaderStep(q, other, step).value)
  {
  }

  /** No step depends on a position: whatever positions the copies carry, the same steps can happen
      and they leave the same values. */
  lemma PositionsDoNotMatter<V>(w: World<V>, u: World<V>, step: Step<V>)
    requires SameWorld(w, u)
    ensures Apply(w, step).Some? == Apply(u, step).Some?
    ensures Apply(w, step).Some? ==> SameWorld(Apply(w, step).value, Apply(u, step).value)
  {
    if step.Poll? || step.ReaderStore? || step.ReaderCancel? {
      if step.reader < |w.readers| {
        var i := step.reader;
        assert SameProcess(w.readers[i], u.readers[i]);
        ReaderPositionsDoNotMatter(w.readers[i], u.readers[i], w.register, u.register, step);
        hide ReaderStep, SameProcess;
      }
    }
  }
}
