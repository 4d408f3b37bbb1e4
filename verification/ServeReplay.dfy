/**
  One request handled without interruption is one path through the serve machine. With such
  paths the condition that keeps a Linear delivery from being queued twice is shown to be
  tight for every clock lag, and a failed delivery is seen to shut out its retry.
 */
module ServeReplay {
  import opened Wrappers
  import opened Arithmetic
  import opened Sources
  import opened Serve
  import opened ServeRun
  import opened LockedMap
  import opened ExpiringMap
  import RateLimiter
  import Timestamps

  /** The handler's shared operations on request `id`, one after the other. */
  function Handling(request: Request, id: nat, cools: bool): seq<Event> {
    [Arrive(request)] + ([CheckRate(id)] + ([CheckDedup(id)] + Tail(id, cools)))
  }

  function Tail(id: nat, cools: bool): seq<Event> {
    if cools then [CheckCooldown(id)] + [Enqueue(id)] else [Enqueue(id)]
  }

  lemma {:induction false} ReachesCons(config: Config, before: State, event: Event, events: seq<Event>, after: State)
    requires Enabled(before, event) && Reaches(config, Step(config, before, event), events, after)
    ensures Reaches(config, before, [event] + events, after)
  {
    assert ([event] + events)[1..] == events;
  }

  lemma {:induction false} ReachesOne(config: Config, before: State, event: Event)
    requires Enabled(before, event)
    ensures Reaches(config, before, [event], Step(config, before, event))
  {
    assert [event][1..] == [];
  }

  /** A run goes on where another ended. */
  lemma {:induction false} ReachesConcat(
    config: Config, before: State, first: seq<Event>, middle: State, second: seq<Event>, after: State)
    requires Reaches(config, before, first, middle) && Reaches(config, middle, second, after)
    ensures Reaches(config, before, first + second, after)
    decreases |first|
  {
    if first == [] {
      assert first + second == second;
    } else {
      ReachesConcat(config, Step(config, before, first[0]), first[1..], middle, second, after);
      assert (first + second)[1..] == first[1..] + second;
    }
  }

  /** A request with its source, what its checks yield and the job it becomes. */
  datatype Parcel = Parcel(request: Request, source: Source, checked: Checked, job: Job)

  ghost predicate Deliverable(config: Config, p: Parcel) {
    && Resolve(config, p.request) == Some(p.source)
    && Precheck(config, p.source, p.request) == Ok(p.checked)
    && Prepare(config, p.source, p.request, p.checked) == Ok(p.job)
  }

  function RateQuery(p: Parcel): RateLimiter.Request { RateLimiter.Request(Name(p.source), p.request.now) }

  function DedupVisit(p: Parcel, id: nat): Visit { Visit(id, p.checked.dedupKey, p.request.now, true) }

  function CooldownVisits(p: Parcel, id: nat): seq<Visit> {
    if Cools(p.checked) then [Visit(id, p.checked.cooldownKey.value, p.request.now, true)] else []
  }

  /** The limiter and the two maps of the store let the request through. */
  ghost predicate Welcome(config: Config, state: State, p: Parcel) {
    && RateLimiter.Step(config.perMinute, RateLimiter.WindowsAfter(config.perMinute, state.rates), RateQuery(p)).1
    && Section(config.policy.dedupTtl, DedupMap(config, state), p.checked.dedupKey, p.request.now).1
    && (Cools(p.checked) ==>
          Section(config.policy.cooldown, CooldownMap(config, state), p.checked.cooldownKey.value, p.request.now).1)
    && !state.closed && |state.phases| == |state.requests|
  }

  /** The state with the request's traces in it and its handler in the given phase. */
  ghost function Traced(state: State, p: Parcel, phase: Phase): State {
    state.(requests := state.requests + [p.request],
           phases := state.phases + [phase],
           rates := state.rates + [RateLimiter.Entry(RateQuery(p), true)],
           dedupVisits := state.dedupVisits + [DedupVisit(p, |state.requests|)],
           cooldownVisits := state.cooldownVisits + CooldownVisits(p, |state.requests|))
  }

  function TicketOf(state: State, p: Parcel): Ticket {
    Ticket(Http(|state.requests|, p.source, |state.rates|, |state.dedupVisits|), p.job)
  }

  /** What a request that reached the queue leaves behind, there being room or not. */
  ghost function Left(state: State, p: Parcel, room: bool): State {
    if room then
      Traced(state, p, Done(Queued(p.job.envelope.id)))
        .(accepted := state.accepted + [TicketOf(state, p)], queue := state.queue + [p.job])
    else Traced(state, p, Done(QueueFull))
  }

  lemma {:induction false} RateStepPasses(config: Config, state: State, request: Request, source: Source)
    returns (after: State)
    requires Resolve(config, request) == Some(source) && |state.phases| == |state.requests|
    requires RateLimiter.Step(config.perMinute, RateLimiter.WindowsAfter(config.perMinute, state.rates),
                              RateLimiter.Request(Name(source), request.now)).1
    ensures var id := |state.requests|;
            && after == state.(requests := state.requests + [request],
                               phases := state.phases + [Limited(source, |state.rates|)],
                               rates := state.rates +
                                 [RateLimiter.Entry(RateLimiter.Request(Name(source), request.now), true)])
            && forall events, last :: Reaches(config, after, events, last) ==>
                 Reaches(config, state, [Arrive(request)] + ([CheckRate(id)] + events), last)
  {
    var id := |state.requests|;
    var arrived := Step(config, state, Arrive(request));
    after := Step(config, arrived, CheckRate(id));
    assert after.phases == state.phases + [Limited(source, |state.rates|)];
    forall events, last | Reaches(config, after, events, last)
      ensures Reaches(config, state, [Arrive(request)] + ([CheckRate(id)] + events), last)
    {
      ReachesCons(config, arrived, CheckRate(id), events, last);
      ReachesCons(config, state, Arrive(request), [CheckRate(id)] + events, last);
    }
  }

  lemma {:induction false} DedupStepPasses(
    config: Config, state: State, id: nat, source: Source, rate: nat, checked: Checked)
    returns (after: State)
    requires id < |state.phases| == |state.requests| && state.phases[id] == Limited(source, rate)
    requires Precheck(config, source, state.requests[id]) == Ok(checked)
    requires Section(config.policy.dedupTtl, DedupMap(config, state), checked.dedupKey, state.requests[id].now).1
    ensures var request, visit := state.requests[id], |state.dedupVisits|;
            after == state.(phases := state.phases[id :=
                              if Cools(checked) then Between(source, rate, visit, checked)
                              else Prepared(config, request, source, rate, visit, checked)],
                            dedupVisits := state.dedupVisits + [Visit(id, checked.dedupKey, request.now, true)])
    ensures after == Step(config, state, CheckDedup(id))
  {
    after := Step(config, state, CheckDedup(id));
  }

  lemma {:induction false} CooldownStepPasses(
    config: Config, state: State, id: nat, source: Source, rate: nat, visit: nat, checked: Checked)
    returns (after: State)
    requires id < |state.phases| == |state.requests| && state.phases[id] == Between(source, rate, visit, checked)
    requires Cools(checked)
    requires Section(config.policy.cooldown, CooldownMap(config, state), checked.cooldownKey.value,
                     state.requests[id].now).1
    ensures var request := state.requests[id];
            after == state.(phases := state.phases[id := Prepared(config, request, source, rate, visit, checked)],
                            cooldownVisits := state.cooldownVisits
                              + [Visit(id, checked.cooldownKey.value, request.now, true)])
    ensures after == Step(config, state, CheckCooldown(id))
  {
    after := Step(config, state, CheckCooldown(id));
  }

  /** Both sections of the store let the request through to the queue. */
  lemma {:induction false} StoreStepsPass(
    config: Config, state: State, id: nat, source: Source, rate: nat, checked: Checked)
    returns (after: State)
    requires id < |state.phases| == |state.requests| && state.phases[id] == Limited(source, rate)
    requires Precheck(config, source, state.requests[id]) == Ok(checked)
    requires Section(config.policy.dedupTtl, DedupMap(config, state), checked.dedupKey, state.requests[id].now).1
    requires Cools(checked) ==> Section(config.policy.cooldown, CooldownMap(config, state), checked.cooldownKey.value,
                                        state.requests[id].now).1
    ensures var request, visit := state.requests[id], |state.dedupVisits|;
            after == state.(phases := state.phases[id := Prepared(config, request, source, rate, visit, checked)],
                            dedupVisits := state.dedupVisits + [Visit(id, checked.dedupKey, request.now, true)],
                            cooldownVisits := state.cooldownVisits
                              + if Cools(checked) then [Visit(id, checked.cooldownKey.value, request.now, true)]
                                else [])
    ensures Enabled(after, Enqueue(id)) ==>
              Reaches(config, state, [CheckDedup(id)] + Tail(id, Cools(checked)), Step(config, after, Enqueue(id)))
  {
    var deduped := DedupStepPasses(config, state, id, source, rate, checked);
    after := deduped;
    if Cools(checked) {
      after := CooldownStepPasses(config, deduped, id, source, rate, |state.dedupVisits|, checked);
    }
    if Enabled(after, Enqueue(id)) {
      TailReaches(config, state, deduped, after, id, Cools(checked));
    }
  }

  lemma {:induction false} TailReaches(
    config: Config, state: State, deduped: State, ready: State, id: nat, cools: bool)
    requires Enabled(state, CheckDedup(id)) && deduped == Step(config, state, CheckDedup(id))
    requires if cools then Enabled(deduped, CheckCooldown(id)) && ready == Step(config, deduped, CheckCooldown(id))
             else ready == deduped
    requires Enabled(ready, Enqueue(id))
    ensures Reaches(config, state, [CheckDedup(id)] + Tail(id, cools), Step(config, ready, Enqueue(id)))
  {
    var last := Step(config, ready, Enqueue(id));
    ReachesOne(config, ready, Enqueue(id));
    if cools {
      ReachesCons(config, deduped, CheckCooldown(id), [Enqueue(id)], last);
    }
    ReachesCons(config, state, CheckDedup(id), Tail(id, cools), last);
  }

  /** A request that limiter and store let through is queued if there is room, and nothing else changes. */
  lemma {:induction false} HandledAlone(config: Config, state: State, p: Parcel)
    requires Deliverable(config, p) && Welcome(config, state, p)
    ensures Reaches(config, state, Handling(p.request, |state.requests|, Cools(p.checked)),
                    Left(state, p, HasRoom(config, state)))
  {
    var id := |state.requests|;
    var limited := RateStepPasses(config, state, p.request, p.source);
    StorePasses(config, state, limited, p);
    assert Reaches(config, limited, [CheckDedup(id)] + Tail(id, Cools(p.checked)),
                   Left(state, p, HasRoom(config, state)));
  }

  lemma {:induction false} StorePasses(config: Config, state: State, limited: State, p: Parcel)
    requires Deliverable(config, p) && Welcome(config, state, p)
    requires limited == state.(requests := state.requests + [p.request],
                               phases := state.phases + [Limited(p.source, |state.rates|)],
                               rates := state.rates + [RateLimiter.Entry(RateQuery(p), true)])
    ensures Reaches(config, limited, [CheckDedup(|state.requests|)] + Tail(|state.requests|, Cools(p.checked)),
                    Left(state, p, HasRoom(config, state)))
  {
    var id := |state.requests|;
    assert limited.requests[id] == p.request && limited.phases[id] == Limited(p.source, |state.rates|);
    assert DedupMap(config, limited) == DedupMap(config, state);
    assert CooldownMap(config, limited) == CooldownMap(config, state);
    var ready := StoreStepsPass(config, limited, id, p.source, |state.rates|, p.checked);
    var phase := Ready(p.source, |state.rates|, |state.dedupVisits|, p.job);
    assert Prepared(config, p.request, p.source, |state.rates|, |state.dedupVisits|, p.checked) == phase;
    TracedFrom(state, limited, p, phase);
    EnqueueLeaves(config, state, p);
  }

  lemma {:induction false} TracedFrom(state: State, limited: State, p: Parcel, phase: Phase)
    requires |state.phases| == |state.requests|
    requires limited == state.(requests := state.requests + [p.request],
                               phases := state.phases + [Limited(p.source, |state.rates|)],
                               rates := state.rates + [RateLimiter.Entry(RateQuery(p), true)])
    ensures var id := |state.requests|;
            Traced(state, p, phase) ==
            limited.(phases := limited.phases[id := phase],
                     dedupVisits := limited.dedupVisits + [DedupVisit(p, id)],
                     cooldownVisits := limited.cooldownVisits + CooldownVisits(p, id))
  {
    assert limited.phases[|state.requests| := phase] == state.phases + [phase];
  }

  lemma {:induction false} EnqueueLeaves(config: Config, state: State, p: Parcel)
    requires !state.closed && |state.phases| == |state.requests|
    ensures var id := |state.requests|;
            var ready := Traced(state, p, Ready(p.source, |state.rates|, |state.dedupVisits|, p.job));
            && Enabled(ready, Enqueue(id))
            && Step(config, ready, Enqueue(id)) == Left(state, p, HasRoom(config, state))
  {
    var id := |state.requests|;
    var ready := Traced(state, p, Ready(p.source, |state.rates|, |state.dedupVisits|, p.job));
    assert Step(config, ready, Enqueue(id)).phases == Left(state, p, HasRoom(config, state)).phases;
  }

  /** The state after a request whose key is still held. */
  ghost function LeftAsDuplicate(state: State, request: Request, source: Source, key: string): State {
    state.(requests := state.requests + [request],
           phases := state.phases + [Done(DUPLICATE)],
           rates := state.rates + [RateLimiter.Entry(RateLimiter.Request(Name(source), request.now), true)],
           dedupVisits := state.dedupVisits + [Visit(|state.requests|, key, request.now, false)])
  }

  function DuplicateHandling(request: Request, id: nat): seq<Event> {
    [Arrive(request)] + ([CheckRate(id)] + [CheckDedup(id)])
  }

  /** A request whose key is still held is answered `Duplicate`. */
  lemma {:induction false} HandledAsDuplicate(
    config: Config, state: State, request: Request, source: Source, checked: Checked)
    requires Resolve(config, request) == Some(source) && Precheck(config, source, request) == Ok(checked)
    requires |state.phases| == |state.requests|
    requires RateLimiter.Step(config.perMinute, RateLimiter.WindowsAfter(config.perMinute, state.rates),
                              RateLimiter.Request(Name(source), request.now)).1
    requires !Section(config.policy.dedupTtl, DedupMap(config, state), checked.dedupKey, request.now).1
    ensures Reaches(config, state, DuplicateHandling(request, |state.requests|),
                    LeftAsDuplicate(state, request, source, checked.dedupKey))
  {
    var id := |state.requests|;
    var limited := RateStepPasses(config, state, request, source);
    var after := Step(config, limited, CheckDedup(id));
    ReachesOne(config, limited, CheckDedup(id));
    assert after.phases == state.phases + [Done(DUPLICATE)];
    assert after == LeftAsDuplicate(state, request, source, checked.dedupKey);
  }

  // ----- Who is welcome -----

  lemma {:induction false} StreakBounded(history: seq<RateLimiter.Entry>, source: string, minute: int)
    ensures RateLimiter.Streak(history, source, minute) <= |history|
  {
    if history != [] {
      StreakBounded(history[..|history| - 1], source, minute);
    }
  }

  /** Fewer requests than the limit never meet it. */
  lemma {:induction false} FewAllowed(limit: U32, history: seq<RateLimiter.Entry>, request: RateLimiter.Request)
    requires |history| < limit
    ensures RateLimiter.Step(limit, RateLimiter.WindowsAfter(limit, history), request).1
  {
    RateLimiter.WindowIsStreak(limit, history, request.source);
    StreakBounded(history, request.source, RateLimiter.Minute(request.now));
  }

  /** Every visit with this key is a lifetime old. */
  ghost predicate AllOld(ttl: int, visits: seq<Visit>, key: string, now: int) {
    forall v :: v in visits && v.key == key ==> v.now + ttl <= now
  }

  lemma {:induction false} OldIsGranted(ttl: int, visits: seq<Visit>, key: string, now: int)
    requires Honest(ttl, visits) && AllOld(ttl, visits, key, now)
    ensures Section(ttl, After(ttl, Touches(visits)), key, now).1
  {
    SectionExact(ttl, visits, key, now);
    forall i: nat | i < |visits|
      ensures !Holds(ttl, visits, i, key, now)
    {
      assert visits[i] in visits;
    }
  }

  /** Few requests so far, the deduplication key free and no recent use of the cooldown key. */
  lemma {:induction false} WelcomeWhenQuiet(config: Config, state: State, p: Parcel)
    requires GenuineHistories(config, state) && |state.rates| < config.perMinute
    requires !state.closed && |state.phases| == |state.requests|
    requires Section(config.policy.dedupTtl, DedupMap(config, state), p.checked.dedupKey, p.request.now).1
    requires Cools(p.checked) ==>
               AllOld(config.policy.cooldown, state.cooldownVisits, p.checked.cooldownKey.value, p.request.now)
    ensures Welcome(config, state, p)
  {
    FewAllowed(config.perMinute, state.rates, RateQuery(p));
    if Cools(p.checked) {
      OldIsGranted(config.policy.cooldown, state.cooldownVisits, p.checked.cooldownKey.value, p.request.now);
    }
  }

  // ----- Runs of several requests -----

  ghost predicate Reachable(config: Config, state: State) { exists events :: Reaches(config, INIT, events, state) }

  /** Let a welcome request follow a run. */
  lemma {:induction false} HandledNext(config: Config, state: State, p: Parcel)
    requires Reachable(config, state) && Deliverable(config, p) && Welcome(config, state, p)
    ensures Reachable(config, Left(state, p, HasRoom(config, state)))
  {
    HandledAlone(config, state, p);
    ReachableNext(config, state, Handling(p.request, |state.requests|, Cools(p.checked)),
                  Left(state, p, HasRoom(config, state)));
  }

  lemma {:induction false} ReachableNext(config: Config, state: State, events: seq<Event>, after: State)
    requires Reachable(config, state) && Reaches(config, state, events, after)
    ensures Reachable(config, after)
  {
    var before :| Reaches(config, INIT, before, state);
    ReachesConcat(config, INIT, before, state, events, after);
  }

  lemma {:induction false} ReachableIsGenuine(config: Config, state: State)
    requires Reachable(config, state)
    ensures GenuineHistories(config, state)
  {
    var events :| Reaches(config, INIT, events, state);
    RunKeepsInvariant(config, INIT, events, state);
  }

  lemma {:induction false} FirstHandled(config: Config, p: Parcel)
    requires Deliverable(config, p) && config.perMinute >= 1 && config.queueCapacity >= 1
    ensures Reachable(config, Left(INIT, p, true))
  {
    assert Reaches(config, INIT, [], INIT);
    OldIsGranted(config.policy.dedupTtl, [], p.checked.dedupKey, p.request.now);
    WelcomeWhenQuiet(config, INIT, p);
    HandledNext(config, INIT, p);
  }

  /** The two do not use one key within its lifetime or cooldown. */
  ghost predicate Apart(config: Config, p: Parcel, q: Parcel) {
    && (p.checked.dedupKey == q.checked.dedupKey ==> p.request.now + config.policy.dedupTtl <= q.request.now)
    && CooledDown(config, p, q)
  }

  ghost predicate CooledDown(config: Config, p: Parcel, q: Parcel) {
    Cools(p.checked) && Cools(q.checked) && p.checked.cooldownKey == q.checked.cooldownKey ==>
      p.request.now + config.policy.cooldown <= q.request.now
  }

  ghost function AfterTwo(config: Config, p: Parcel, q: Parcel): State {
    Left(Left(INIT, p, true), q, config.queueCapacity >= 2)
  }

  lemma {:induction false} SecondWelcome(config: Config, p: Parcel, q: Parcel)
    requires Apart(config, p, q) && config.perMinute >= 2 && GenuineHistories(config, Left(INIT, p, true))
    ensures Welcome(config, Left(INIT, p, true), q)
  {
    var first := Left(INIT, p, true);
    OneLeft(p);
    OnlyOld(config.policy.dedupTtl, DedupVisit(p, 0), q.checked.dedupKey, q.request.now);
    OldIsGranted(config.policy.dedupTtl, first.dedupVisits, q.checked.dedupKey, q.request.now);
    if Cools(p.checked) && Cools(q.checked) {
      OnlyOld(config.policy.cooldown, CooldownVisits(p, 0)[0], q.checked.cooldownKey.value, q.request.now);
    }
    WelcomeWhenQuiet(config, first, q);
  }

  lemma {:induction false} OneLeft(p: Parcel)
    ensures var first := Left(INIT, p, true);
            && first.dedupVisits == [DedupVisit(p, 0)] && first.cooldownVisits == CooldownVisits(p, 0)
            && |first.rates| == 1 && !first.closed && |first.phases| == |first.requests| == 1 == |first.queue|
  {}

  lemma {:induction false} OnlyOld(ttl: int, visit: Visit, key: string, now: int)
    requires visit.key == key ==> visit.now + ttl <= now
    ensures AllOld(ttl, [visit], key, now)
  {}

  /** Two requests that keep apart get through limiter and store one after the other. */
  lemma {:induction false} BothHandled(config: Config, p: Parcel, q: Parcel)
    requires Deliverable(config, p) && Deliverable(config, q) && Apart(config, p, q)
    requires config.perMinute >= 2 && config.queueCapacity >= 1
    ensures Reachable(config, AfterTwo(config, p, q))
  {
    var first := Left(INIT, p, true);
    FirstHandled(config, p);
    ReachableIsGenuine(config, first);
    SecondWelcome(config, p, q);
    HandledNext(config, first, q);
    OneLeft(p);
    assert HasRoom(config, first) <==> config.queueCapacity >= 2;
  }

  // ----- The replay bound is tight -----

  /** The same delivery again, `delay` seconds later. */
  function Replayed(request: Request, delay: int): Request { request.(now := request.now + delay) }

  /** The parcel is a Linear delivery seen a window before its timestamp. */
  ghost predicate AWindowEarly(config: Config, p: Parcel) {
    var window := config.linearWindowSeconds;
    && Deliverable(config, p) && p.source == Linear
    && 0 < window && 0 <= p.request.now && p.request.now + 2 * window <= I64_MAX
    && Timestamps.ExtractEpoch(p.checked.payload) == Some(p.request.now + window)
  }

  /** A delivery first seen a window early is deliverable again a window late. */
  lemma {:induction false} ReplayDeliverable(config: Config, p: Parcel) returns (again: Parcel)
    requires AWindowEarly(config, p)
    ensures Deliverable(config, again) && SameDelivery(config, p.request, again.request)
    ensures again.request == Replayed(p.request, 2 * config.linearWindowSeconds)
    ensures again.source == Linear && again.checked == p.checked
  {
    var late := Replayed(p.request, 2 * config.linearWindowSeconds);
    Timestamps.WindowExact(p.checked.payload, late.now, config.linearWindowSeconds);
    assert Precheck(config, Linear, late) == Ok(p.checked);
    again := Parcel(late, Linear, p.checked, Prepare(config, Linear, late, p.checked).value);
  }

  /** The two tickets of a run come from the first and last request, both for Linear. */
  ghost predicate QueuedBoth(state: State, p: Parcel, again: Parcel, last: nat) {
    && |state.requests| == last + 1 == |state.accepted| && last > 0
    && state.requests[0] == p.request && state.requests[last] == again.request
    && state.accepted[0].origin == Http(0, Linear, 0, 0)
    && state.accepted[last].origin == Http(last, Linear, last, last)
  }

  /**
    With a deduplication lifetime of at most two windows (and a cooldown no longer), every
    Linear delivery that is queued a window early is queued again when replayed a window late.
   */
  lemma {:induction false} ReplayQueuedTwice(config: Config, p: Parcel) returns (again: Parcel, after: State)
    requires AWindowEarly(config, p) && config.perMinute >= 2 && config.queueCapacity >= 2
    requires config.policy.dedupTtl <= 2 * config.linearWindowSeconds
    requires config.policy.cooldown <= 2 * config.linearWindowSeconds
    ensures Reachable(config, after) && QueuedBoth(after, p, again, 1)
    ensures again.request == Replayed(p.request, 2 * config.linearWindowSeconds)
    ensures SameDelivery(config, p.request, again.request)
  {
    again := ReplayDeliverable(config, p);
    BothHandled(config, p, again);
    after := AfterTwo(config, p, again);
    TwoLeft(config, p, again);
  }

  lemma {:induction false} TwoLeft(config: Config, p: Parcel, again: Parcel)
    requires config.queueCapacity >= 2 && p.source == Linear && again.source == Linear
    ensures QueuedBoth(AfterTwo(config, p, again), p, again, 1)
  {}

  /** A third party's visit past the expiry prunes the key, so the replay finds it gone. */
  lemma {:induction false} PrunedByOther(ttl: int, visits: seq<Visit>, now: int)
    requires Honest(ttl, visits) && |visits| == 2
    requires visits[1].key != visits[0].key && visits[0].now + ttl <= visits[1].now
    ensures Section(ttl, After(ttl, Touches(visits)), visits[0].key, now).1
  {
    SectionExact(ttl, visits, visits[0].key, now);
  }

  /** `other` uses other keys, with a clock at the expiry of `p`'s. */
  ghost predicate Prunes(config: Config, p: Parcel, other: Parcel) {
    && other.checked.dedupKey != p.checked.dedupKey
    && other.request.now == p.request.now + config.policy.dedupTtl
    && (Cools(p.checked) && Cools(other.checked) ==> p.checked.cooldownKey != other.checked.cooldownKey)
  }

  lemma {:induction false} WelcomeAfterPruning(config: Config, p: Parcel, other: Parcel, again: Parcel)
    requires Prunes(config, p, other) && again.checked == p.checked
    requires p.request.now + config.policy.cooldown <= again.request.now && config.perMinute >= 3
    requires GenuineHistories(config, AfterTwo(config, p, other))
    ensures Welcome(config, AfterTwo(config, p, other), again)
  {
    var second := AfterTwo(config, p, other);
    VisitsOfTwo(config, p, other);
    PrunedByOther(config.policy.dedupTtl, second.dedupVisits, again.request.now);
    if Cools(p.checked) {
      assert AllOld(config.policy.cooldown, CooldownVisits(p, 0), p.checked.cooldownKey.value, again.request.now);
      assert AllOld(config.policy.cooldown, CooldownVisits(other, 1), p.checked.cooldownKey.value, again.request.now);
    }
    WelcomeWhenQuiet(config, second, again);
  }

  lemma {:induction false} VisitsOfTwo(config: Config, p: Parcel, q: Parcel)
    ensures var second := AfterTwo(config, p, q);
            && second.dedupVisits == [DedupVisit(p, 0)] + [DedupVisit(q, 1)]
            && second.cooldownVisits == CooldownVisits(p, 0) + CooldownVisits(q, 1)
            && |second.rates| == 2 && !second.closed && |second.phases| == |second.requests|
  {}

  lemma {:induction false} ThreeLeft(config: Config, p: Parcel, other: Parcel, again: Parcel, lag: nat)
    requires config.queueCapacity >= 3 && p.source == Linear && again.source == Linear
    requires p.request.now <= other.request.now + lag && other.request.now <= again.request.now + lag
    requires p.request.now <= again.request.now + lag
    ensures HasRoom(config, AfterTwo(config, p, other))
    ensures var after := Left(AfterTwo(config, p, other), again, true);
            QueuedBoth(after, p, again, 2) && VisitLag(after.dedupVisits, lag)
  {
    var after := Left(AfterTwo(config, p, other), again, true);
    assert after.dedupVisits == [DedupVisit(p, 0)] + [DedupVisit(other, 1)] + [DedupVisit(again, 2)];
  }

  /**
    The same for clocks that lag: with a lifetime of more than two windows but no more than
    two windows and the lag, another request whose clock runs ahead by the lag prunes the
    delivery's key, and its replay is queued again.
   */
  lemma {:induction false} ReplayQueuedTwiceWithLag(config: Config, p: Parcel, other: Parcel, lag: nat)
    returns (again: Parcel, after: State)
    requires AWindowEarly(config, p) && config.perMinute >= 3 && config.queueCapacity >= 3
    requires 2 * config.linearWindowSeconds < config.policy.dedupTtl <= 2 * config.linearWindowSeconds + lag
    requires config.policy.cooldown <= 2 * config.linearWindowSeconds
    requires Deliverable(config, other) && Prunes(config, p, other)
    ensures Reachable(config, after) && QueuedBoth(after, p, again, 2) && VisitLag(after.dedupVisits, lag)
    ensures again.request == Replayed(p.request, 2 * config.linearWindowSeconds)
    ensures SameDelivery(config, p.request, again.request)
  {
    again := ReplayDeliverable(config, p);
    BothHandled(config, p, other);
    ReachableIsGenuine(config, AfterTwo(config, p, other));
    WelcomeAfterPruning(config, p, other, again);
    HandledNext(config, AfterTwo(config, p, other), again);
    ThreeLeft(config, p, other, again, lag);
    after := Left(AfterTwo(config, p, other), again, true);
  }

  // ----- A failed delivery shuts out its retry -----

  /**
    The queue is full when a delivery arrives, it is answered `QueueFull`, the worker makes
    room, and the retry within the lifetime is still turned away as a duplicate.
   */
  lemma {:induction false} RetryShutOut(config: Config, filler: Parcel, p: Parcel, delay: nat) returns (after: State)
    requires config.perMinute >= 3 && config.queueCapacity == 1 && delay < config.policy.dedupTtl
    requires Deliverable(config, filler) && Deliverable(config, p) && Apart(config, filler, p)
    requires Precheck(config, p.source, Replayed(p.request, delay)) == Ok(p.checked)
    ensures Reachable(config, after) && HasRoom(config, after)
    ensures after.requests == [filler.request] + [p.request] + [Replayed(p.request, delay)] && |after.phases| == 3
    ensures after.phases[1] == Done(QueueFull) && after.phases[2] == Done(DUPLICATE)
  {
    BothHandled(config, filler, p);
    ReplayResolves(config, p, delay);
    after := RetriedWhenFull(config, filler, p, Replayed(p.request, delay), delay);
  }

  lemma {:induction false} RetriedWhenFull(config: Config, filler: Parcel, p: Parcel, again: Request, delay: nat)
    returns (after: State)
    requires config.perMinute >= 3 && config.queueCapacity == 1 && delay < config.policy.dedupTtl
    requires Reachable(config, AfterTwo(config, filler, p)) && again.now == p.request.now + delay
    requires Resolve(config, again) == Some(p.source) && Precheck(config, p.source, again) == Ok(p.checked)
    ensures Reachable(config, after) && HasRoom(config, after)
    ensures after.requests == [filler.request] + [p.request] + [again] && |after.phases| == 3
    ensures after.phases[1] == Done(QueueFull) && after.phases[2] == Done(DUPLICATE)
  {
    var full := AfterTwo(config, filler, p);
    ReachableIsGenuine(config, full);
    StillHeld(config, filler, p, delay);
    FullLeft(config, filler, p);
    after := RetriedAfterRelief(config, full, again, p.source, p.checked);
  }

  lemma {:induction false} FullLeft(config: Config, filler: Parcel, p: Parcel)
    requires config.queueCapacity == 1
    ensures var full := AfterTwo(config, filler, p);
            && full.requests == [filler.request] + [p.request] && |full.phases| == 2 == |full.rates|
            && full.phases[1] == Done(QueueFull) && |full.queue| == 1 && full.inFlight.None? && !full.closed
  {}

  lemma {:induction false} ReplayResolves(config: Config, p: Parcel, delay: nat)
    requires Deliverable(config, p)
    ensures Resolve(config, Replayed(p.request, delay)) == Some(p.source)
  {}

  lemma {:induction false} StillHeld(config: Config, filler: Parcel, p: Parcel, delay: nat)
    requires GenuineHistories(config, AfterTwo(config, filler, p)) && delay < config.policy.dedupTtl
    ensures !Section(config.policy.dedupTtl, DedupMap(config, AfterTwo(config, filler, p)), p.checked.dedupKey,
                     p.request.now + delay).1
  {
    VisitsOfTwo(config, filler, p);
    LastStillHolds(config.policy.dedupTtl, [DedupVisit(filler, 0)], DedupVisit(p, 1), p.request.now + delay);
  }

  /** The last visit, if granted, holds its key for its lifetime. */
  lemma {:induction false} LastStillHolds(ttl: int, earlier: seq<Visit>, last: Visit, now: int)
    requires Honest(ttl, earlier + [last]) && last.granted && now < last.now + ttl
    ensures !Section(ttl, After(ttl, Touches(earlier + [last])), last.key, now).1
  {
    SectionExact(ttl, earlier + [last], last.key, now);
    assert Holds(ttl, earlier + [last], |earlier|, last.key, now);
  }

  /** The worker takes a job, and the request that follows is a duplicate. */
  lemma {:induction false} RetriedAfterRelief(
    config: Config, state: State, again: Request, source: Source, checked: Checked) returns (after: State)
    requires Reachable(config, state) && |state.phases| == |state.requests|
    requires !state.closed && state.inFlight.None? && 0 < |state.queue| <= config.queueCapacity
    requires |state.rates| < config.perMinute
    requires Resolve(config, again) == Some(source) && Precheck(config, source, again) == Ok(checked)
    requires !Section(config.policy.dedupTtl, DedupMap(config, state), checked.dedupKey, again.now).1
    ensures Reachable(config, after) && HasRoom(config, after)
    ensures after.requests == state.requests + [again] && after.phases == state.phases + [Done(DUPLICATE)]
  {
    var relieved := state.(inFlight := Some(state.queue[0]), queue := state.queue[1..]);
    WorkerRelieves(config, state);
    FewAllowed(config.perMinute, relieved.rates, RateLimiter.Request(Name(source), again.now));
    HandledAsDuplicate(config, relieved, again, source, checked);
    after := LeftAsDuplicate(relieved, again, source, checked.dedupKey);
    ReachableNext(config, relieved, DuplicateHandling(again, |state.requests|), after);
  }

  lemma {:induction false} WorkerRelieves(config: Config, state: State)
    requires Reachable(config, state) && Enabled(state, WorkerTakes)
    ensures Reachable(config, state.(inFlight := Some(state.queue[0]), queue := state.queue[1..]))
  {
    ReachesOne(config, state, WorkerTakes);
    ReachableNext(config, state, [WorkerTakes], Step(config, state, WorkerTakes));
  }
}
