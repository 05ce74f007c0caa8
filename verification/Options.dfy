/** How `New` merges options and what it accepts (options.go, direct_options.go). */
module Options {
  import opened Envelope
  import Engine

  /** The `WithStore` option: absent, a value that is no usable store, or a store, which may or may
      not have `PeekFreshValue`. */
  datatype StoreOption = NoStore | BadStore | GoodStore(supportsFresh: bool)

  datatype Options = Options(store: StoreOption, ttl: Option<int>, staleTTL: int,
                             noExpiration: bool, bypass: bool, keepStale: bool)

  datatype Error = InvalidStore | InvalidTTL | InvalidStaleTTL | MissingExpirationPolicy | MissingStore

  datatype Result = Created(config: Engine.Config) | Rejected(error: Error)

  const NONE: Options := Options(NoStore, None, 0, false, false, false)

  /** `applyOptions`: what is set later wins, flags accumulate. */
  function Merge(a: Options, b: Options): Options {
    Options(if b.store.NoStore? then a.store else b.store,
            if b.ttl.Some? then b.ttl else a.ttl,
            if b.staleTTL != 0 then b.staleTTL else a.staleTTL,
            a.noExpiration || b.noExpiration, a.bypass || b.bypass, a.keepStale || b.keepStale)
  }

  function MergeAll(opts: seq<Options>): Options {
    if opts == [] then NONE else Merge(MergeAll(opts[..|opts| - 1]), opts[|opts| - 1])
  }

  /** A flag is set exactly if some option sets it. */
  lemma {:induction false} MergedFlags(opts: seq<Options>)
    ensures MergeAll(opts).noExpiration <==> exists i | 0 <= i < |opts| :: opts[i].noExpiration
    ensures MergeAll(opts).bypass <==> exists i | 0 <= i < |opts| :: opts[i].bypass
    ensures MergeAll(opts).keepStale <==> exists i | 0 <= i < |opts| :: opts[i].keepStale
  {
    if opts != [] {
      var n := |opts| - 1;
      MergedFlags(opts[..n]);
      assert forall i | 0 <= i < n :: opts[..n][i] == opts[i];
    }
  }

  /** Of several ttls, stale windows or stores the last one counts. */
  lemma {:induction false} MergedTTL(opts: seq<Options>)
    ensures MergeAll(opts).ttl == None <==> forall i | 0 <= i < |opts| :: opts[i].ttl == None
    ensures forall i | 0 <= i < |opts| && opts[i].ttl != None ::
              (forall j | i < j < |opts| :: opts[j].ttl == None) ==> MergeAll(opts).ttl == opts[i].ttl
  {
    if opts != [] {
      var n := |opts| - 1;
      MergedTTL(opts[..n]);
      assert forall i | 0 <= i < n :: opts[..n][i] == opts[i];
    }
  }

  lemma {:induction false} MergedStaleTTL(opts: seq<Options>)
    ensures MergeAll(opts).staleTTL == 0 <==> forall i | 0 <= i < |opts| :: opts[i].staleTTL == 0
    ensures forall i | 0 <= i < |opts| && opts[i].staleTTL != 0 ::
              (forall j | i < j < |opts| :: opts[j].staleTTL == 0) ==> MergeAll(opts).staleTTL == opts[i].staleTTL
  {
    if opts != [] {
      var n := |opts| - 1;
      MergedStaleTTL(opts[..n]);
      assert forall i | 0 <= i < n :: opts[..n][i] == opts[i];
    }
  }

  lemma {:induction false} MergedStore(opts: seq<Options>)
    ensures MergeAll(opts).store == NoStore <==> forall i | 0 <= i < |opts| :: opts[i].store == NoStore
    ensures forall i | 0 <= i < |opts| && opts[i].store != NoStore ::
              (forall j | i < j < |opts| :: opts[j].store == NoStore) ==> MergeAll(opts).store == opts[i].store
  {
    if opts != [] {
      var n := |opts| - 1;
      MergedStore(opts[..n]);
      assert forall i | 0 <= i < n :: opts[..n][i] == opts[i];
    }
  }

  predicate AnyBadStore(opts: seq<Options>) {
    exists i | 0 <= i < |opts| :: opts[i].store.BadStore?
  }

  /** The combinations that describe a cache. */
  predicate Describes(o: Options) {
    && (o.ttl.Some? ==> 0 < o.ttl.value)
    && 0 <= o.staleTTL && (0 < o.staleTTL ==> o.ttl.Some?)
    && (o.ttl.Some? || o.noExpiration || o.bypass)
    && (o.store.GoodStore? || o.bypass)
  }

  method New(opts: seq<Options>) returns (r: Result)
    ensures r.Created? <==> !AnyBadStore(opts) && Describes(MergeAll(opts))
    ensures r == Rejected(InvalidStore) <==> AnyBadStore(opts)
    ensures r.Rejected? && !AnyBadStore(opts) ==>
              var o := MergeAll(opts);
              r.error == if o.ttl.Some? && o.ttl.value <= 0 then InvalidTTL
                         else if o.staleTTL < 0 then InvalidStaleTTL
                         else if o.ttl.None? && !o.noExpiration && !o.bypass then MissingExpirationPolicy
                         else if o.ttl.None? && 0 < o.staleTTL then InvalidStaleTTL
                         else MissingStore
    ensures r.Created? ==> var o := MergeAll(opts); var c := r.config;
              && c.policy == Policy(if o.ttl.Some? then o.ttl.value else 0, o.staleTTL, o.noExpiration)
              && c.bypass == o.bypass && c.keepStale == o.keepStale
              && (!c.bypass ==> o.store == GoodStore(c.supportsFresh) && ValidPolicy(c.policy))
  {
    var c := NONE;
    for i := 0 to |opts|
      invariant c == MergeAll(opts[..i]) && !c.store.BadStore?
      invariant forall j | 0 <= j < i :: !opts[j].store.BadStore?
    {
      if opts[i].store.BadStore? {
        return Rejected(InvalidStore);
      }
      assert opts[..i + 1][..i] == opts[..i];
      c := Merge(c, opts[i]);
    }
    assert opts[..|opts|] == opts;
    var ttl := if c.ttl.Some? then c.ttl.value else 0;
    if c.ttl.Some? && ttl <= 0 {
      return Rejected(InvalidTTL);
    }
    if c.staleTTL < 0 {
      return Rejected(InvalidStaleTTL);
    }
    if ttl == 0 && !c.noExpiration && !c.bypass {
      return Rejected(MissingExpirationPolicy);
    }
    if ttl == 0 && c.staleTTL > 0 {
      return Rejected(InvalidStaleTTL);
    }
    if c.store.NoStore? && !c.bypass {
      return Rejected(MissingStore);
    }
    return Created(Engine.Config(Policy(ttl, c.staleTTL, c.noExpiration), c.store.GoodStore? && c.store.supportsFresh,
                                 c.keepStale, c.bypass));
  }
}
