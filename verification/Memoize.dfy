/** Direct memoizers (memoize.go): the cache engine over the default store, with the hash of the
    arguments as its key. A memoizer is right exactly when the hash tells its arguments apart. */
module Memoize {
  import opened Envelope
  import opened Words
  import opened Hashing
  import opened PairHashing
  import opened StringHashing
  import opened Flights
  import opened Engine
  import opened EngineTransparency
  import Solo = EngineSolo

  /** What happens to the private cache of a memoizer of `f`: calls with arguments in `dom`, whose
      computations return f of the argument or, with `errors` (`Memoize1E`), may fail; the default
      store never fails. */
  predicate MemoAction<A, V(==), E(==), P(==)>(hash: A -> Word, dom: A -> bool, f: A -> V, errors: bool,
                                               w: World<Word, A, V, E, P>, a: Action<Word, A, V, E, P>) {
    match a
    case Call(_, k, fn) => dom(fn) && k == hash(fn)
    case CallGet(_, _) => false
    case CallSet(_, _, _) => false
    case Step(t, Yields(o)) =>
      t in w.threads && (w.threads[t].AtBypass? || w.threads[t].Leading?) ==>
        o == Ok(f(w.threads[t].fn)) || (errors && !o.Ok?)
    case Step(_, StoreFails(_, _)) => false
    case Step(_, WriteFails(_, _)) => false
    case _ => true
  }

  ghost function Allowed<A, V, E, P>(hash: A -> Word, dom: A -> bool, f: A -> V, errors: bool)
    : (World<Word, A, V, E, P>, Action<Word, A, V, E, P>) -> bool
  {
    (w, a) => MemoAction(hash, dom, f, errors, w, a)
  }

  ghost predicate MemoRun<A, V, E, P>(hash: A -> Word, dom: A -> bool, f: A -> V, errors: bool, c: Config,
                                      clock: Time, actions: seq<Action<Word, A, V, E, P>>) {
    && Exec(c, Init(clock), actions).Some?
    && Throughout(c, Init(clock), actions, Allowed(hash, dom, f, errors))
  }

  /** Every call that has returned has returned f of its argument, or has failed if it may. */
  ghost predicate AnswersRight<A, V, E, P>(f: A -> V, errors: bool, w: World<Word, A, V, E, P>,
                                           actions: seq<Action<Word, A, V, E, P>>) {
    forall i | 0 <= i < |actions| && actions[i].Call? ::
      actions[i].t in w.threads && w.threads[actions[i].t].Done? ==>
        w.threads[actions[i].t].result == Ok(f(actions[i].fn)) || (errors && !w.threads[actions[i].t].result.Ok?)
  }

  ghost predicate InjectiveOn<A(!new)>(hash: A -> Word, dom: A -> bool) {
    forall a, b | dom(a) && dom(b) && hash(a) == hash(b) :: a == b
  }

  // ---------- injective hashes are right ----------

  /** A thread works on one key. */
  lemma KeyStays<K, C, V, E, P>(c: Config, s: World<K, C, V, E, P>, a: Action<K, C, V, E, P>, t: Tid)
    requires Apply(c, s, a).Some? && t in s.threads
    ensures t in Apply(c, s, a).value.threads
    ensures Apply(c, s, a).value.threads[t].key == s.threads[t].key
  {
  }

  lemma {:induction false} CallKey<K, C, V, E, P>(c: Config, s: World<K, C, V, E, P>,
                                                  actions: seq<Action<K, C, V, E, P>>, i: nat)
    requires Exec(c, s, actions).Some? && i < |actions| && actions[i].Call?
    ensures actions[i].t in Exec(c, s, actions).value.threads
    ensures Exec(c, s, actions).value.threads[actions[i].t].key == actions[i].key
  {
    var n := |actions| - 1;
    if i < n {
      CallKey(c, s, actions[..n], i);
      KeyStays(c, Exec(c, s, actions[..n]).value, actions[n], actions[i].t);
    }
  }

  ghost function MemoSpec<A(!new), V>(hash: A -> Word, dom: A -> bool, f: A -> V, errors: bool): Spec<Word, A, V> {
    Spec((k, v) => exists a :: dom(a) && hash(a) == k && v == f(a), (k, fn) => dom(fn) && k == hash(fn), errors)
  }

  lemma MemoIsHonest<A(!new), V, E, P>(hash: A -> Word, dom: A -> bool, f: A -> V, errors: bool,
                                       w: World<Word, A, V, E, P>, a: Action<Word, A, V, E, P>)
    requires MemoAction(hash, dom, f, errors, w, a)
    ensures HonestAction(MemoSpec(hash, dom, f, errors), w, a)
  {
  }

  /** With a hash that tells the arguments apart, every call returns f of its argument, on every
      run: under any interleaving, any expiry and any eviction. */
  lemma InjectiveIsRight<A(!new), V, E, P>(hash: A -> Word, dom: A -> bool, f: A -> V, errors: bool, c: Config,
                                           clock: Time, actions: seq<Action<Word, A, V, E, P>>)
    requires InjectiveOn(hash, dom) && MemoRun(hash, dom, f, errors, c, clock, actions)
    ensures AnswersRight(f, errors, Exec(c, Init(clock), actions).value, actions)
  {
    var spec := MemoSpec(hash, dom, f, errors);
    var s0: World<Word, A, V, E, P> := Init(clock);
    forall i | 0 <= i < |actions| && Exec(c, s0, actions[..i]).Some?
      ensures HonestAction(spec, Exec(c, s0, actions[..i]).value, actions[i])
    {
      MemoIsHonest(hash, dom, f, errors, Exec(c, s0, actions[..i]).value, actions[i]);
    }
    ExecTruthful(spec, c, clock, actions);
    var w := Exec(c, s0, actions).value;
    forall i | 0 <= i < |actions| && actions[i].Call? && actions[i].t in w.threads && w.threads[actions[i].t].Done?
      ensures w.threads[actions[i].t].result == Ok(f(actions[i].fn)) || (errors && !w.threads[actions[i].t].result.Ok?)
    {
      CallArgument(hash, dom, f, errors, c, clock, actions, i);
      CallKey(c, s0, actions, i);
      assert GoodThread(spec, w.threads[actions[i].t]);
    }
  }

  lemma {:induction false} CallArgument<A, V, E, P>(hash: A -> Word, dom: A -> bool, f: A -> V, errors: bool,
                                                    c: Config, clock: Time, actions: seq<Action<Word, A, V, E, P>>,
                                                    i: nat)
    requires MemoRun(hash, dom, f, errors, c, clock, actions) && i < |actions| && actions[i].Call?
    ensures dom(actions[i].fn) && actions[i].key == hash(actions[i].fn)
  {
    var n := |actions| - 1;
    ThroughoutPrefix(c, Init(clock), actions, Allowed<A, V, E, P>(hash, dom, f, errors));
    if i < n {
      CallArgument(hash, dom, f, errors, c, clock, actions[..n], i);
    }
  }

  // ---------- colliding hashes are wrong ----------

  lemma AllowedSteps<A(!new), V(!new), E(!new), P(!new)>(hash: A -> Word, dom: A -> bool, f: A -> V, errors: bool)
    ensures Solo.AllowsSteps(Allowed<A, V, E, P>(hash, dom, f, errors))
  {
  }

  /** The state after a first call with argument a, alone, at time `clock`. */
  function AfterFirst<A, V, E, P>(c: Config, clock: Time, k: Word, a: A, v: V): World<Word, A, V, E, P> {
    var s0: World<Word, A, V, E, P> := Init(clock);
    Goto(Solo.Computed(c, s0.(table := Start(s0.table, k, 0)), 0, k, v), 0, Done(k, Ok(v), Led(0, None)))
  }

  lemma FirstCall<A(!new), V(!new), E(!new), P(!new)>(hash: A -> Word, dom: A -> bool, f: A -> V, errors: bool,
                                                      c: Config, clock: Time, a: A)
    returns (actions: seq<Action<Word, A, V, E, P>>)
    requires dom(a) && !c.bypass
    ensures Solo.Path(c, Allowed(hash, dom, f, errors), Init(clock), actions, AfterFirst(c, clock, hash(a), a, f(a)))
  {
    var s0: World<Word, A, V, E, P> := Init(clock);
    var allowed := Allowed<A, V, E, P>(hash, dom, f, errors);
    AllowedSteps<A, V, E, P>(hash, dom, f, errors);
    assert Solo.Path(c, allowed, s0, [], s0);
    hide Solo.Path, Solo.AllowsSteps, Exec, Throughout;
    actions := Solo.SoloMiss(c, allowed, s0, [], s0, 0, hash(a), a, f(a));
  }

  /** A second call whose argument has the same hash gets the first one's value. */
  lemma SecondCall<A(!new), V(!new), E(!new), P(!new)>(
      hash: A -> Word, dom: A -> bool, f: A -> V, errors: bool, c: Config, clock: Time, a: A, b: A,
      before: seq<Action<Word, A, V, E, P>>)
    returns (actions: seq<Action<Word, A, V, E, P>>)
    requires dom(a) && dom(b) && hash(a) == hash(b) && !c.bypass && ValidPolicy(c.policy)
    requires Solo.Path(c, Allowed(hash, dom, f, errors), Init(clock), before, AfterFirst(c, clock, hash(a), a, f(a)))
    ensures before + [Call(1, hash(b), b)] <= actions
    ensures Solo.Path(c, Allowed(hash, dom, f, errors), Init(clock), actions,
                      Goto(AfterFirst(c, clock, hash(a), a, f(a)), 1, Done(hash(b), Ok(f(a)), Hit)))
  {
    var s0: World<Word, A, V, E, P> := Init(clock);
    var s1: World<Word, A, V, E, P> := AfterFirst(c, clock, hash(a), a, f(a));
    AllowedSteps<A, V, E, P>(hash, dom, f, errors);
    hide Solo.Path, Solo.AllowsSteps, Exec, Throughout;
    actions := Solo.Arrive(c, Allowed(hash, dom, f, errors), s0, before, s1, 1, hash(b), b);
    assert Solo.Arrived(c, s1, hash(b), b) == Done(hash(b), Ok(f(a)), Hit);
  }

  /** A run on which a call returns the value of another argument. */
  lemma CollisionIsWrong<A(!new), V(!new), E(!new), P(!new)>(
      hash: A -> Word, dom: A -> bool, errors: bool, c: Config, clock: Time, a: A, b: A, v0: V, v1: V)
    returns (f: A -> V, actions: seq<Action<Word, A, V, E, P>>)
    requires dom(a) && dom(b) && a != b && hash(a) == hash(b) && v0 != v1
    requires ValidPolicy(c.policy) && !c.bypass
    ensures MemoRun(hash, dom, f, errors, c, clock, actions)
    ensures !AnswersRight(f, errors, Exec(c, Init(clock), actions).value, actions)
  {
    f := x => if x == a then v0 else v1;
    var before: seq<Action<Word, A, V, E, P>> := FirstCall(hash, dom, f, errors, c, clock, a);
    actions := SecondCall(hash, dom, f, errors, c, clock, a, b, before);
    var i := |before|;
    assert actions[i] == (before + [Call(1, hash(b), b)])[i];
  }

  /** A memoizer returns f of the argument for every function f, on every run, if and only if its
      hash is injective on the arguments it is called with. */
  lemma RightIffInjective<A(!new), V(!new), E(!new), P(!new)>(
      hash: A -> Word, dom: A -> bool, errors: bool, c: Config, v0: V, v1: V)
    requires ValidPolicy(c.policy) && !c.bypass && v0 != v1
    ensures InjectiveOn(hash, dom) <==>
              forall f: A -> V, clock, actions: seq<Action<Word, A, V, E, P>> | MemoRun(hash, dom, f, errors, c,
                  clock, actions) ::
                AnswersRight(f, errors, Exec(c, Init(clock), actions).value, actions)
  {
    if InjectiveOn(hash, dom) {
      forall f: A -> V, clock, actions: seq<Action<Word, A, V, E, P>> | MemoRun(hash, dom, f, errors, c, clock, actions)
        ensures AnswersRight(f, errors, Exec(c, Init(clock), actions).value, actions)
      {
        InjectiveIsRight(hash, dom, f, errors, c, clock, actions);
      }
    } else {
      var a, b :| dom(a) && dom(b) && hash(a) == hash(b) && a != b;
      var f: A -> V, actions: seq<Action<Word, A, V, E, P>> := CollisionIsWrong(hash, dom, errors, c, 0, a, b, v0, v1);
    }
  }

  // ---------- the memoizers ----------

  function Key1(k: Key): Word {
    if ValidKey(k) then Hash1(k) else 0
  }

  function Key2(p: (Key, Key)): Word {
    if ValidKey(p.0) && ValidKey(p.1) then Hash2(p.0, p.1) else 0
  }

  /** The arguments of a memoizer over the type of `s`, or over the types of `s1` and `s2`. */
  function Args1(s: Key): Key -> bool {
    k => OfType(s, k)
  }

  function Args2(s1: Key, s2: Key): ((Key, Key)) -> bool {
    (p: (Key, Key)) => OfType(s1, p.0) && OfType(s2, p.1)
  }

  lemma OneArgument(s: Key)
    requires Supported(s)
    ensures InjectiveOn(Key1, Args1(s)) <==> !s.Str?
  {
    if s.Str? {
      var a, b := StringsCollide(OFFSET);
      assert Args1(s)(Str(a)) && Args1(s)(Str(b)) && Key1(Str(a)) == Key1(Str(b));
    } else {
      forall a, b | Args1(s)(a) && Args1(s)(b) && Key1(a) == Key1(b) ensures a == b {
        Hash1Injective(a, b);
      }
    }
  }

  lemma TwoArguments(s1: Key, s2: Key)
    requires Supported(s1) && Supported(s2)
    ensures InjectiveOn(Key2, Args2(s1, s2)) <==> !PairCollides(s1, s2)
  {
    hide Hash2, PairCollides;
    if PairCollides(s1, s2) {
      var a1, a2, b1, b2 := PairsCollide(s1, s2);
      assert Args2(s1, s2)((a1, b1)) && Args2(s1, s2)((a2, b2)) && Key2((a1, b1)) == Key2((a2, b2));
    } else {
      forall p, q | Args2(s1, s2)(p) && Args2(s1, s2)(q) && Key2(p) == Key2(q) ensures p == q {
        SameCollides(s1, s2, p.0, p.1);
        PairsApart(p.0, q.0, p.1, q.1);
      }
    }
  }

  /** Whether two types collide depends on the types alone. */
  lemma SameCollides(s1: Key, s2: Key, a: Key, b: Key)
    requires Supported(s1) && Supported(s2) && OfType(s1, a) && OfType(s2, b)
    ensures Supported(a) && Supported(b) && PairCollides(a, b) == PairCollides(s1, s2)
    ensures forall k :: OfType(s1, k) == OfType(a, k) && OfType(s2, k) == OfType(b, k)
  {
  }

  /** `Memoize1` and `Memoize1E` over an integer type or over booleans are right on every run. */
  lemma Memoize1IsRight<V, E, P>(s: Key, f: Key -> V, errors: bool, c: Config, clock: Time,
                                 actions: seq<Action<Word, Key, V, E, P>>)
    requires Supported(s) && !s.Str?
    requires MemoRun(Key1, Args1(s), f, errors, c, clock, actions)
    ensures AnswersRight(f, errors, Exec(c, Init(clock), actions).value, actions)
  {
    OneArgument(s);
    InjectiveIsRight(Key1, Args1(s), f, errors, c, clock, actions);
  }

  /** Over arguments of which any two are told apart, `Memoize1` is right on every run: over strings, say,
      that differ in one byte. */
  lemma Memoize1ToldApart<V, E, P>(dom: Key -> bool, f: Key -> V, errors: bool, c: Config, clock: Time,
                                   actions: seq<Action<Word, Key, V, E, P>>)
    requires forall a, b | dom(a) && dom(b) :: ToldApart(a, b)
    requires MemoRun(Key1, dom, f, errors, c, clock, actions)
    ensures AnswersRight(f, errors, Exec(c, Init(clock), actions).value, actions)
  {
    forall a, b | dom(a) && dom(b) && Key1(a) == Key1(b) ensures a == b {
      KeysApart(OFFSET, a, b);
    }
    InjectiveIsRight(Key1, dom, f, errors, c, clock, actions);
  }

  /** `Memoize1` is right for every function and on every run, if and only if its argument is no
      string. */
  lemma Memoize1RightIff<V(!new), E(!new), P(!new)>(s: Key, errors: bool, c: Config, v0: V, v1: V)
    requires Supported(s) && ValidPolicy(c.policy) && !c.bypass && v0 != v1
    ensures !s.Str? <==>
              forall f: Key -> V, clock, actions: seq<Action<Word, Key, V, E, P>> |
                MemoRun(Key1, Args1(s), f, errors, c, clock, actions) ::
                AnswersRight(f, errors, Exec(c, Init(clock), actions).value, actions)
  {
    OneArgument(s);
    RightIffInjective<Key, V, E, P>(Key1, Args1(s), errors, c, v0, v1);
  }

  /** `Memoize2` is right for every function and on every run, if and only if neither argument is a
      string or a 64-bit integer, the second is no boolean, not both are signed, and not both have 32
      bits. */
  lemma Memoize2RightIff<V(!new), E(!new), P(!new)>(s1: Key, s2: Key, errors: bool, c: Config, v0: V, v1: V)
    requires Supported(s1) && Supported(s2) && ValidPolicy(c.policy) && !c.bypass && v0 != v1
    ensures !PairCollides(s1, s2) <==>
              forall f: ((Key, Key)) -> V, clock, actions: seq<Action<Word, (Key, Key), V, E, P>> |
                MemoRun(Key2, Args2(s1, s2), f, errors, c, clock, actions) ::
                AnswersRight(f, errors, Exec(c, Init(clock), actions).value, actions)
  {
    TwoArguments(s1, s2);
    RightIffInjective<(Key, Key), V, E, P>(Key2, Args2(s1, s2), errors, c, v0, v1);
  }
}
