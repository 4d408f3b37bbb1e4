/**
  Rate limiting and idempotency as one admission decision per request, and its
  independence between sources.
 */
module Admission {
  import opened Wrappers
  import opened ExpiringMap
  import Idempotency
  import RateLimiter
  import Arithmetic
  import opened Sources
  import Serve

  /** A request as admission sees it; `valid` says that signature, payload and key checks pass. */
  datatype Arrival = Arrival(source: Source, now: int, valid: bool, dedupKey: string, cooldownKey: Option<string>)

  datatype Verdict = RateLimited | Invalid | Decided(decision: Idempotency.Decision)

  datatype State = State(windows: map<string, RateLimiter.Window>, store: Idempotency.Store)

  datatype Limits = Limits(perMinute: Arithmetic.U32, policy: Idempotency.Policy)

  const EMPTY := State(map[], Idempotency.Store(map[], map[]))

  function CallOf(arrival: Arrival): Idempotency.Call {
    Idempotency.Call(arrival.dedupKey, arrival.cooldownKey, arrival.now)
  }

  /** The limiter counts every request; only valid ones reach the store. */
  function Admit(limits: Limits, state: State, arrival: Arrival): (State, Verdict) {
    var (windows, allowed) :=
      RateLimiter.Step(limits.perMinute, state.windows, RateLimiter.Request(Name(arrival.source), arrival.now));
    if !allowed then (state.(windows := windows), RateLimited)
    else if !arrival.valid then (state.(windows := windows), Invalid)
    else
      var (store, decision) := Idempotency.Decide(limits.policy, state.store, CallOf(arrival));
      (State(windows, store), Decided(decision))
  }

  function StateAfter(limits: Limits, arrivals: seq<Arrival>): State {
    if arrivals == [] then EMPTY
    else Admit(limits, StateAfter(limits, arrivals[..|arrivals| - 1]), arrivals[|arrivals| - 1]).0
  }

  function Verdicts(limits: Limits, arrivals: seq<Arrival>): (verdicts: seq<Verdict>)
    ensures |verdicts| == |arrivals|
  {
    if arrivals == [] then []
    else
      var n := |arrivals| - 1;
      Verdicts(limits, arrivals[..n]) + [Admit(limits, StateAfter(limits, arrivals[..n]), arrivals[n]).1]
  }

  /** The arrivals of one source, and what a run answered them. */
  function Only(arrivals: seq<Arrival>, source: Source): seq<Arrival> {
    if arrivals == [] then []
    else
      var last := arrivals[|arrivals| - 1];
      Only(arrivals[..|arrivals| - 1], source) + if last.source == source then [last] else []
  }

  function VerdictsFor(arrivals: seq<Arrival>, verdicts: seq<Verdict>, source: Source): seq<Verdict>
    requires |verdicts| == |arrivals|
  {
    if arrivals == [] then []
    else
      var n := |arrivals| - 1;
      VerdictsFor(arrivals[..n], verdicts[..n], source)
      + if arrivals[n].source == source then [verdicts[n]] else []
  }

  ghost predicate Monotone(arrivals: seq<Arrival>) {
    forall i, j :: 0 <= i < j < |arrivals| ==> arrivals[i].now <= arrivals[j].now
  }

  /** Keys carry their source's prefix, as the key printers guarantee. */
  ghost predicate Keyed(arrival: Arrival) {
    arrival.valid ==>
    && OwnsDedupKey(arrival.source, arrival.dedupKey)
    && (arrival.cooldownKey.Some? ==> OwnsCooldownKey(arrival.source, arrival.cooldownKey.value))
  }

  // ----- Two stores that one source cannot tell apart -----

  /** From `now` on, the two maps hold the same unexpired value for `key`. */
  ghost predicate AgreeOn(a: map<string, int>, b: map<string, int>, now: int, key: string) {
    && (key in a && a[key] > now <==> key in b && b[key] > now)
    && (key in a && a[key] > now ==> a[key] == b[key])
  }

  ghost predicate StoresAlike(a: Idempotency.Store, b: Idempotency.Store, now: int, source: Source) {
    && (forall key :: OwnsDedupKey(source, key) ==> AgreeOn(a.dedup, b.dedup, now, key))
    && (forall key :: OwnsCooldownKey(source, key) ==> AgreeOn(a.cooldowns, b.cooldowns, now, key))
  }

  ghost predicate Alike(a: State, b: State, now: int, source: Source) {
    && (Name(source) in a.windows <==> Name(source) in b.windows)
    && (Name(source) in a.windows ==> a.windows[Name(source)] == b.windows[Name(source)])
    && StoresAlike(a.store, b.store, now, source)
  }

  lemma {:induction false} AgreeLater(a: map<string, int>, b: map<string, int>, now: int, later: int, key: string)
    requires AgreeOn(a, b, now, key) && now <= later
    ensures AgreeOn(a, b, later, key)
    ensures AgreeOn(Prune(a, later), b, later, key) && AgreeOn(Prune(a, later), Prune(b, later), later, key)
  {}

  /** A request of another source leaves everything this source can observe alone. */
  lemma {:induction false} OthersInvisible(
    limits: Limits, a: State, b: State, now: int, arrival: Arrival, source: Source)
    requires Alike(a, b, now, source) && now <= arrival.now
    requires arrival.source != source && Keyed(arrival)
    ensures Alike(Admit(limits, a, arrival).0, b, arrival.now, source)
  {
    var after := Admit(limits, a, arrival).0;
    forall key | OwnsDedupKey(source, key)
      ensures AgreeOn(after.store.dedup, b.store.dedup, arrival.now, key)
    {
      KeySpacesDisjoint(source, arrival.source, key);
      AgreeLater(a.store.dedup, b.store.dedup, now, arrival.now, key);
    }
    forall key | OwnsCooldownKey(source, key)
      ensures AgreeOn(after.store.cooldowns, b.store.cooldowns, arrival.now, key)
    {
      KeySpacesDisjoint(source, arrival.source, key);
      AgreeLater(a.store.cooldowns, b.store.cooldowns, now, arrival.now, key);
    }
    assert Name(source) != Name(arrival.source);
  }

  lemma {:induction false} StoresStayAlike(
    a: Idempotency.Store, b: Idempotency.Store, now: int, later: int, source: Source)
    requires StoresAlike(a, b, now, source) && now <= later
    ensures StoresAlike(a, b, later, source)
    ensures StoresAlike(Idempotency.Store(Prune(a.dedup, later), Prune(a.cooldowns, later)),
                        Idempotency.Store(Prune(b.dedup, later), Prune(b.cooldowns, later)), later, source)
  {
    forall key | OwnsDedupKey(source, key)
      ensures AgreeOn(a.dedup, b.dedup, later, key)
      ensures AgreeOn(Prune(a.dedup, later), Prune(b.dedup, later), later, key)
    {
      AgreeLater(a.dedup, b.dedup, now, later, key);
    }
    forall key | OwnsCooldownKey(source, key)
      ensures AgreeOn(a.cooldowns, b.cooldowns, later, key)
      ensures AgreeOn(Prune(a.cooldowns, later), Prune(b.cooldowns, later), later, key)
    {
      AgreeLater(a.cooldowns, b.cooldowns, now, later, key);
    }
  }

  lemma {:induction false} StoreAnswersAlike(
    policy: Idempotency.Policy, a: Idempotency.Store, b: Idempotency.Store, now: int, arrival: Arrival)
    requires StoresAlike(a, b, now, arrival.source) && now <= arrival.now && arrival.valid && Keyed(arrival)
    ensures var (a', da) := Idempotency.Decide(policy, a, CallOf(arrival));
            var (b', db) := Idempotency.Decide(policy, b, CallOf(arrival));
            da == db && StoresAlike(a', b', arrival.now, arrival.source)
  {
    StoresStayAlike(a, b, now, arrival.now, arrival.source);
    assert AgreeOn(Prune(a.dedup, arrival.now), Prune(b.dedup, arrival.now), arrival.now, arrival.dedupKey);
    if arrival.cooldownKey.Some? {
      assert AgreeOn(Prune(a.cooldowns, arrival.now), Prune(b.cooldowns, arrival.now), arrival.now,
                     arrival.cooldownKey.value);
    }
  }

  /** A request of this source is answered alike and keeps the two states alike. */
  lemma {:induction false} OwnAnsweredAlike(limits: Limits, a: State, b: State, now: int, arrival: Arrival)
    requires Alike(a, b, now, arrival.source) && now <= arrival.now && Keyed(arrival)
    ensures Admit(limits, a, arrival).1 == Admit(limits, b, arrival).1
    ensures Alike(Admit(limits, a, arrival).0, Admit(limits, b, arrival).0, arrival.now, arrival.source)
  {
    StoresStayAlike(a.store, b.store, now, arrival.now, arrival.source);
    if arrival.valid {
      StoreAnswersAlike(limits.policy, a.store, b.store, now, arrival);
    }
  }

  // ----- Independence -----

  function LastNow(arrivals: seq<Arrival>): int
    requires arrivals != []
  {
    arrivals[|arrivals| - 1].now
  }

  lemma {:induction false} SourceRunsAlike(limits: Limits, arrivals: seq<Arrival>, source: Source)
    requires Monotone(arrivals) && forall i :: 0 <= i < |arrivals| ==> Keyed(arrivals[i])
    ensures arrivals != [] ==>
              Alike(StateAfter(limits, arrivals), StateAfter(limits, Only(arrivals, source)), LastNow(arrivals), source)
    ensures VerdictsFor(arrivals, Verdicts(limits, arrivals), source) == Verdicts(limits, Only(arrivals, source))
  {
    if arrivals != [] {
      var n := |arrivals| - 1;
      var past, last := arrivals[..n], arrivals[n];
      SourceRunsAlike(limits, past, source);
      var full, own := StateAfter(limits, past), StateAfter(limits, Only(past, source));
      var now := if past == [] then last.now else LastNow(past);
      assert Alike(full, own, now, source);
      assert Verdicts(limits, arrivals)[..n] == Verdicts(limits, past);
      if last.source == source {
        OwnAnsweredAlike(limits, full, own, now, last);
        var only := Only(arrivals, source);
        assert only[..|only| - 1] == Only(past, source);
      } else {
        OthersInvisible(limits, full, own, now, last, source);
        assert Only(arrivals, source) == Only(past, source);
      }
    }
  }

  /** Deleting every other source's requests leaves all of a source's answers unchanged. */
  lemma {:induction false} SourcesIndependent(limits: Limits, arrivals: seq<Arrival>, source: Source)
    requires Monotone(arrivals) && forall i :: 0 <= i < |arrivals| ==> Keyed(arrivals[i])
    ensures VerdictsFor(arrivals, Verdicts(limits, arrivals), source) == Verdicts(limits, Only(arrivals, source))
  {
    SourceRunsAlike(limits, arrivals, source);
  }

  // ----- The requests themselves -----

  /** A webhook request that reached its source's handler. */
  datatype Sourced = Sourced(source: Source, request: Serve.Request)

  function ArrivalOf(config: Serve.Config, sourced: Sourced): Arrival {
    var now := sourced.request.now;
    match Serve.Precheck(config, sourced.source, sourced.request)
    case Err(_) => Arrival(sourced.source, now, false, "", None)
    case Ok(checked) => Arrival(sourced.source, now, true, checked.dedupKey, checked.cooldownKey)
  }

  function Arrivals(config: Serve.Config, requests: seq<Sourced>): (arrivals: seq<Arrival>)
    ensures |arrivals| == |requests|
    ensures forall i :: 0 <= i < |requests| ==> arrivals[i] == ArrivalOf(config, requests[i])
  {
    seq(|requests|, i requires 0 <= i < |requests| => ArrivalOf(config, requests[i]))
  }

  function From(requests: seq<Sourced>, source: Source): seq<Sourced> {
    if requests == [] then []
    else
      var last := requests[|requests| - 1];
      From(requests[..|requests| - 1], source) + if last.source == source then [last] else []
  }

  lemma {:induction false} ArrivalIsKeyed(config: Serve.Config, sourced: Sourced)
    ensures Keyed(ArrivalOf(config, sourced))
  {
    if sourced.request.body.Some? {
      KeysAreOwned(sourced.source, sourced.request.headers, sourced.request.body.value);
    }
  }

  lemma {:induction false} OnlyFrom(config: Serve.Config, requests: seq<Sourced>, source: Source)
    ensures Only(Arrivals(config, requests), source) == Arrivals(config, From(requests, source))
  {
    if requests != [] {
      var n := |requests| - 1;
      OnlyFrom(config, requests[..n], source);
      assert Arrivals(config, requests)[..n] == Arrivals(config, requests[..n]);
    }
  }

  /** The handler's limiter and store answer a source's requests as if no other source existed. */
  lemma {:induction false} RequestsIndependent(config: Serve.Config, requests: seq<Sourced>, source: Source)
    requires forall i, j :: 0 <= i < j < |requests| ==> requests[i].request.now <= requests[j].request.now
    ensures var limits, arrivals := Limits(config.perMinute, config.policy), Arrivals(config, requests);
            VerdictsFor(arrivals, Verdicts(limits, arrivals), source) ==
            Verdicts(limits, Arrivals(config, From(requests, source)))
  {
    var arrivals := Arrivals(config, requests);
    forall i | 0 <= i < |arrivals|
      ensures Keyed(arrivals[i])
    {
      ArrivalIsKeyed(config, requests[i]);
    }
    OnlyFrom(config, requests, source);
    SourcesIndependent(Limits(config.perMinute, config.policy), arrivals, source);
  }
}
