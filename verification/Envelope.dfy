/** The cache-entry envelope and its fresh / stale / expired classification (stored.go). */
module Envelope {

  /** Instants in arbitrary units; the zero instant is Go's zero `time.Time`. */
  type Time = int

  const ZERO_TIME: Time := 0

  datatype Option<+T> = None | Some(value: T)

  datatype Stored<+V> = Stored(
    value: V,
    createdAt: Time,
    freshUntil: Time,
    staleUntil: Time,
    noExpire: bool,
    version: string,
    tags: seq<string>)

  datatype EntryState = Expired | Fresh | Stale

  function State<V>(s: Stored<V>, now: Time): EntryState {
    if s.noExpire then Fresh
    else if now <= s.freshUntil then Fresh
    else if s.staleUntil != ZERO_TIME && now <= s.staleUntil then Stale
    else Expired
  }

  predicate IsFresh<V>(s: Stored<V>, now: Time) {
    State(s, now) == Fresh
  }

  /** The expiration policy of a cache, as `New` validates it (options.go). */
  datatype Policy = Policy(ttl: int, staleTTL: int, noExpiration: bool)

  predicate ValidPolicy(p: Policy) {
    && 0 <= p.ttl && 0 <= p.staleTTL
    && (p.ttl == 0 ==> p.noExpiration && p.staleTTL == 0)
  }

  /** The envelope that `Cache.Set` writes at instant `now`. */
  function Seal<V>(p: Policy, value: V, now: Time): Stored<V> {
    var freshUntil := if p.noExpiration then ZERO_TIME else now + p.ttl;
    var staleUntil :=
      if !p.noExpiration && 0 < p.staleTTL then freshUntil + p.staleTTL else ZERO_TIME;
    Stored(value, now, freshUntil, staleUntil, p.noExpiration, "", [])
  }

  /** An entry without a deadline is fresh for ever; any other is fresh up to and including
      `written + ttl`, stale up to and including `written + ttl + staleTTL`, expired afterwards.
      The one exception is a stale deadline that falls exactly on the zero instant: the code
      reads it as "no stale window". */
  lemma Timeline<V>(p: Policy, value: V, written: Time, now: Time)
    requires ValidPolicy(p)
    ensures var state := State(Seal(p, value, written), now);
            && (state == Fresh <==> p.noExpiration || now <= written + p.ttl)
            && (state == Stale <==>
                !p.noExpiration && written + p.ttl < now <= written + p.ttl + p.staleTTL
                && written + p.ttl + p.staleTTL != ZERO_TIME)
  {
  }

  /** How far an entry is from fresh. */
  function Age(state: EntryState): nat {
    match state
    case Fresh => 0
    case Stale => 1
    case Expired => 2
  }

  /** Age never improves an entry: once stale it is never fresh again, once expired it stays expired. */
  lemma AgesMonotonically<V>(s: Stored<V>, earlier: Time, later: Time)
    requires earlier <= later
    ensures Age(State(s, earlier)) <= Age(State(s, later))
  {
  }
}
