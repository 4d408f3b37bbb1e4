/**
  Serve over whole runs: any number of handlers interleaved between their four shared
  operations (rate limiter, the store's two locked sections, queue), other ingress
  adapters, and the publish worker.
 */
module ServeRun {
  import opened Wrappers
  import opened Arithmetic
  import opened Json
  import opened Sources
  import opened Serve
  import opened ExpiringMap
  import Idempotency
  import opened LockedMap
  import RateLimiter
  import Timestamps

  /** How far a handler has come; indices point at its entry in the limiter's and the first lock's history. */
  datatype Phase =
    | Arrived
    | Limited(source: Source, rate: nat)
    | Between(source: Source, rate: nat, visit: nat, checked: Checked)
    | Ready(source: Source, rate: nat, visit: nat, job: Job)
    | Done(response: Response)

  datatype Origin = Http(id: nat, source: Source, rate: nat, visit: nat) | Direct(event: DirectEvent)

  /** A job that was answered ok. */
  datatype Ticket = Ticket(origin: Origin, job: Job)

  datatype State = State(
    requests: seq<Request>,
    phases: seq<Phase>,
    rates: seq<RateLimiter.Entry>,
    dedupVisits: seq<Visit>,
    cooldownVisits: seq<Visit>,
    accepted: seq<Ticket>,
    queue: seq<Job>,
    inFlight: Option<Job>,
    processed: seq<Processed>,
    closed: bool)

  datatype Event =
    | Arrive(request: Request)
    | CheckRate(id: nat)
    | CheckDedup(id: nat)
    | CheckCooldown(id: nat)
    | Enqueue(id: nat)
    | EnqueueDirect(event: DirectEvent)
    | WorkerTakes
    | WorkerFinishes(published: bool)
    | Close

  const INIT := State([], [], [], [], [], [], [], None, [], false)

  ghost predicate Enabled(state: State, event: Event) {
    match event
    case Arrive(_) => true
    case CheckRate(id) => id < |state.phases| == |state.requests| && state.phases[id].Arrived?
    case CheckDedup(id) => id < |state.phases| == |state.requests| && state.phases[id].Limited?
    case CheckCooldown(id) =>
      id < |state.phases| == |state.requests| && state.phases[id].Between?
      && state.phases[id].checked.cooldownKey.Some?
    case Enqueue(id) => id < |state.phases| == |state.requests| && state.phases[id].Ready?
    case EnqueueDirect(_) => true
    case WorkerTakes => !state.closed && state.inFlight.None? && state.queue != []
    case WorkerFinishes(_) => state.inFlight.Some?
    case Close => true
  }

  /** `try_send` succeeds. */
  predicate HasRoom(config: Config, state: State) {
    !state.closed && |state.queue| < config.queueCapacity
  }

  ghost function RateStep(config: Config, state: State, id: nat): State
    requires Enabled(state, CheckRate(id))
  {
    var request := state.requests[id];
    match Resolve(config, request)
    case None => state.(phases := state.phases[id := Done(NotFound)])
    case Some(source) =>
      var query := RateLimiter.Request(Name(source), request.now);
      var windows := RateLimiter.WindowsAfter(config.perMinute, state.rates);
      var allowed := RateLimiter.Step(config.perMinute, windows, query).1;
      state.(rates := state.rates + [RateLimiter.Entry(query, allowed)],
             phases := state.phases[id := if allowed then Limited(source, |state.rates|) else Done(TooManyRequests)])
  }

  /** The next phase of a request that got through the store. */
  ghost function Prepared(config: Config, request: Request, source: Source, rate: nat, visit: nat, checked: Checked)
    : Phase
  {
    match Prepare(config, source, request, checked)
    case Err(error) => Done(Refused(error))
    case Ok(job) => Ready(source, rate, visit, job)
  }

  predicate Cools(checked: Checked) { checked.cooldownKey.Some? && checked.cooldownKey.value != "" }

  ghost function DedupMap(config: Config, state: State): map<string, int> {
    After(config.policy.dedupTtl, Touches(state.dedupVisits))
  }

  ghost function CooldownMap(config: Config, state: State): map<string, int> {
    After(config.policy.cooldown, Touches(state.cooldownVisits))
  }

  /** The checks and the store's first section. A source never prints an empty key (`DedupKeyNonEmpty`). */
  ghost function DedupStep(config: Config, state: State, id: nat): State
    requires Enabled(state, CheckDedup(id))
  {
    var request, phase := state.requests[id], state.phases[id];
    match Precheck(config, phase.source, request)
    case Err(error) => state.(phases := state.phases[id := Done(Refused(error))])
    case Ok(checked) =>
      var granted := Section(config.policy.dedupTtl, DedupMap(config, state), checked.dedupKey, request.now).1;
      var visit := |state.dedupVisits|;
      var next :=
        if !granted then Done(Ignored(Idempotency.Duplicate))
        else if Cools(checked) then Between(phase.source, phase.rate, visit, checked)
        else Prepared(config, request, phase.source, phase.rate, visit, checked);
      state.(dedupVisits := state.dedupVisits + [Visit(id, checked.dedupKey, request.now, granted)],
             phases := state.phases[id := next])
  }

  ghost function CooldownStep(config: Config, state: State, id: nat): State
    requires Enabled(state, CheckCooldown(id))
  {
    var request, phase := state.requests[id], state.phases[id];
    var key := phase.checked.cooldownKey.value;
    var granted := Section(config.policy.cooldown, CooldownMap(config, state), key, request.now).1;
    var next :=
      if granted then Prepared(config, request, phase.source, phase.rate, phase.visit, phase.checked)
      else Done(Ignored(Idempotency.Cooldown));
    state.(cooldownVisits := state.cooldownVisits + [Visit(id, key, request.now, granted)],
           phases := state.phases[id := next])
  }

  ghost function QueueStep(config: Config, state: State, id: nat): State
    requires Enabled(state, Enqueue(id))
  {
    var phase := state.phases[id];
    if HasRoom(config, state) then
      state.(queue := state.queue + [phase.job],
             accepted := state.accepted + [Ticket(Http(id, phase.source, phase.rate, phase.visit), phase.job)],
             phases := state.phases[id := Done(Queued(phase.job.envelope.id))])
    else
      state.(phases := state.phases[id := Done(if state.closed then QueueClosed else QueueFull)])
  }

  ghost function Step(config: Config, state: State, event: Event): State
    requires Enabled(state, event)
  {
    match event
    case Arrive(request) => state.(requests := state.requests + [request], phases := state.phases + [Arrived])
    case CheckRate(id) => RateStep(config, state, id)
    case CheckDedup(id) => DedupStep(config, state, id)
    case CheckCooldown(id) => CooldownStep(config, state, id)
    case Enqueue(id) => QueueStep(config, state, id)
    case EnqueueDirect(direct) =>
      var job := PrepareDirect(config, direct);
      if job.Ok? && HasRoom(config, state) then
        state.(queue := state.queue + [job.value], accepted := state.accepted + [Ticket(Direct(direct), job.value)])
      else state
    case WorkerTakes => state.(inFlight := Some(state.queue[0]), queue := state.queue[1..])
    case WorkerFinishes(published) =>
      state.(inFlight := None, processed := state.processed + [Processed(state.inFlight.value, published)])
    case Close => state.(closed := true)
  }

  ghost predicate Reaches(config: Config, before: State, events: seq<Event>, after: State)
    decreases |events|
  {
    if events == [] then before == after
    else Enabled(before, events[0]) && Reaches(config, Step(config, before, events[0]), events[1..], after)
  }

  // ----- Conservation -----

  ghost function TicketJobs(tickets: seq<Ticket>): (jobs: seq<Job>)
    ensures |jobs| == |tickets| && forall i :: 0 <= i < |jobs| ==> jobs[i] == tickets[i].job
  {
    seq(|tickets|, i requires 0 <= i < |tickets| => tickets[i].job)
  }

  ghost function ProcessedJobs(processed: seq<Processed>): (jobs: seq<Job>)
    ensures |jobs| == |processed| && forall i :: 0 <= i < |jobs| ==> jobs[i] == processed[i].job
  {
    seq(|processed|, i requires 0 <= i < |processed| => processed[i].job)
  }

  ghost function InFlightJobs(inFlight: Option<Job>): seq<Job> {
    if inFlight.Some? then [inFlight.value] else []
  }

  /** The jobs answered ok are, in order, those processed, the one in flight and those queued. */
  ghost predicate Conserved(config: Config, state: State) {
    && TicketJobs(state.accepted) == ProcessedJobs(state.processed) + InFlightJobs(state.inFlight) + state.queue
    && |state.queue| <= config.queueCapacity
  }

  /** Putting one accepted job at the end of the queue keeps the books balanced. */
  lemma {:induction false} AcceptConserves(config: Config, state: State, after: State, ticket: Ticket)
    requires Conserved(config, state) && HasRoom(config, state)
    requires after.accepted == state.accepted + [ticket] && after.queue == state.queue + [ticket.job]
    requires after.processed == state.processed && after.inFlight == state.inFlight
    ensures Conserved(config, after)
  {
    assert TicketJobs(after.accepted) == TicketJobs(state.accepted) + [ticket.job];
  }

  lemma {:induction false} WorkerConserves(config: Config, state: State, event: Event)
    requires Conserved(config, state) && Enabled(state, event) && (event.WorkerTakes? || event.WorkerFinishes?)
    ensures Conserved(config, Step(config, state, event))
  {
    var after := Step(config, state, event);
    if event.WorkerTakes? {
      assert state.queue == [state.queue[0]] + after.queue;
    } else {
      assert ProcessedJobs(after.processed) == ProcessedJobs(state.processed) + [state.inFlight.value];
    }
  }

  lemma {:induction false} StepConserves(config: Config, state: State, event: Event)
    requires Conserved(config, state) && Enabled(state, event)
    ensures Conserved(config, Step(config, state, event))
  {
    var after := Step(config, state, event);
    if event.WorkerTakes? || event.WorkerFinishes? {
      WorkerConserves(config, state, event);
    } else if |after.accepted| > |state.accepted| {
      AcceptConserves(config, state, after, after.accepted[|state.accepted|]);
    }
  }

  // ----- Every HTTP job passed every stage -----

  /** Request `id` was let in by the limiter at entry `rate`. */
  ghost predicate PassedLimiter(config: Config, state: State, id: nat, source: Source, rate: nat) {
    && id < |state.requests|
    && Resolve(config, state.requests[id]) == Some(source)
    && rate < |state.rates|
    && state.rates[rate] == RateLimiter.Entry(RateLimiter.Request(Name(source), state.requests[id].now), true)
  }

  /** Request `id` passed the checks and was granted its deduplication key at `visit`. */
  ghost predicate PassedDedup(config: Config, state: State, id: nat, source: Source, visit: nat, checked: Checked) {
    && id < |state.requests|
    && Precheck(config, source, state.requests[id]) == Ok(checked)
    && visit < |state.dedupVisits|
    && state.dedupVisits[visit] == Visit(id, checked.dedupKey, state.requests[id].now, true)
  }

  /** Request `id` passed the checks and was denied its deduplication key at `visit`. */
  ghost predicate DeniedDedup(config: Config, state: State, id: nat, visit: nat) {
    && id < |state.requests|
    && var source := Resolve(config, state.requests[id]);
    && source.Some?
    && var checked := Precheck(config, source.value, state.requests[id]);
    && checked.Ok?
    && visit < |state.dedupVisits|
    && state.dedupVisits[visit] == Visit(id, checked.value.dedupKey, state.requests[id].now, false)
  }

  /** Request `id` was granted its cooldown key, if it has one. */
  ghost predicate PassedCooldown(state: State, id: nat, checked: Checked) {
    && id < |state.requests|
    && (Cools(checked) ==>
          exists i :: 0 <= i < |state.cooldownVisits|
                      && state.cooldownVisits[i] == Visit(id, checked.cooldownKey.value, state.requests[id].now, true))
  }

  /** Request `id` passed limiter, checks and both sections of the store, and became `job`. */
  ghost predicate Earned(config: Config, state: State, id: nat, source: Source, rate: nat, visit: nat, job: Job) {
    && PassedLimiter(config, state, id, source, rate)
    && var checked := Precheck(config, source, state.requests[id]);
    && checked.Ok?
    && PassedDedup(config, state, id, source, visit, checked.value)
    && PassedCooldown(state, id, checked.value)
    && Prepare(config, source, state.requests[id], checked.value) == Ok(job)
  }

  /** Answers that a request with valid checks gets only after its deduplication key was recorded. */
  predicate AfterRecording(response: Response) {
    response.Refused? || response.Queued? || response.QueueFull? || response.QueueClosed?
    || response == Ignored(Idempotency.Cooldown)
  }

  /** Request `id`, had it valid checks, was granted its deduplication key before such an answer. */
  ghost predicate Recorded(config: Config, state: State, id: nat, response: Response) {
    id < |state.requests| && AfterRecording(response) ==>
      var source := Resolve(config, state.requests[id]);
      source.Some? && Precheck(config, source.value, state.requests[id]).Ok? ==>
        exists visit :: PassedDedup(config, state, id, source.value, visit,
                                    Precheck(config, source.value, state.requests[id]).value)
  }

  const DUPLICATE := Ignored(Idempotency.Duplicate)

  /** An answer is justified by the visit that led to it. */
  ghost predicate AnswerJustified(config: Config, state: State, id: nat, response: Response) {
    && Recorded(config, state, id, response)
    && (response == DUPLICATE ==> exists visit :: DeniedDedup(config, state, id, visit))
  }

  ghost predicate PhaseJustified(config: Config, state: State, id: nat, phase: Phase) {
    match phase
    case Arrived => true
    case Limited(source, rate) => PassedLimiter(config, state, id, source, rate)
    case Between(source, rate, visit, checked) =>
      PassedLimiter(config, state, id, source, rate) && PassedDedup(config, state, id, source, visit, checked)
      && Cools(checked)
    case Ready(source, rate, visit, job) => Earned(config, state, id, source, rate, visit, job)
    case Done(response) => AnswerJustified(config, state, id, response)
  }

  ghost predicate TicketJustified(config: Config, state: State, ticket: Ticket) {
    match ticket.origin
    case Http(id, source, rate, visit) => Earned(config, state, id, source, rate, visit, ticket.job)
    case Direct(event) => PrepareDirect(config, event) == Ok(ticket.job)
  }

  ghost predicate Justified(config: Config, state: State) {
    && |state.phases| == |state.requests|
    && (forall id :: 0 <= id < |state.phases| ==> PhaseJustified(config, state, id, state.phases[id]))
    && (forall i :: 0 <= i < |state.accepted| ==> TicketJustified(config, state, state.accepted[i]))
  }

  ghost predicate Remembers(earlier: State, later: State) {
    && earlier.requests <= later.requests
    && earlier.rates <= later.rates
    && earlier.dedupVisits <= later.dedupVisits
    && earlier.cooldownVisits <= later.cooldownVisits
  }

  lemma {:induction false} LimiterRemembered(
    config: Config, earlier: State, later: State, id: nat, source: Source, rate: nat)
    requires Remembers(earlier, later) && PassedLimiter(config, earlier, id, source, rate)
    ensures PassedLimiter(config, later, id, source, rate)
  {
    assert later.requests[id] == earlier.requests[id];
    assert later.rates[rate] == earlier.rates[rate];
  }

  lemma {:induction false} DedupRemembered(
    config: Config, earlier: State, later: State, id: nat, source: Source, visit: nat, checked: Checked)
    requires Remembers(earlier, later) && PassedDedup(config, earlier, id, source, visit, checked)
    ensures PassedDedup(config, later, id, source, visit, checked)
  {
    assert later.requests[id] == earlier.requests[id];
    assert later.dedupVisits[visit] == earlier.dedupVisits[visit];
  }

  lemma {:induction false} EarnedRemembered(
    config: Config, earlier: State, later: State, id: nat, source: Source, rate: nat, visit: nat, job: Job)
    requires Remembers(earlier, later) && Earned(config, earlier, id, source, rate, visit, job)
    ensures Earned(config, later, id, source, rate, visit, job)
  {
    LimiterRemembered(config, earlier, later, id, source, rate);
    var checked := Precheck(config, source, earlier.requests[id]).value;
    DedupRemembered(config, earlier, later, id, source, visit, checked);
    assert later.requests[id] == earlier.requests[id];
    if Cools(checked) {
      var i :| 0 <= i < |earlier.cooldownVisits| && earlier.cooldownVisits[i] ==
        Visit(id, checked.cooldownKey.value, earlier.requests[id].now, true);
      assert later.cooldownVisits[i] == earlier.cooldownVisits[i];
    }
  }

  lemma {:induction false} RecordedRemembered(config: Config, earlier: State, later: State, id: nat, response: Response)
    requires Remembers(earlier, later) && id < |earlier.requests| && Recorded(config, earlier, id, response)
    ensures Recorded(config, later, id, response)
  {
    var request := earlier.requests[id];
    assert later.requests[id] == request;
    var source := Resolve(config, request);
    if AfterRecording(response) && source.Some? && Precheck(config, source.value, request).Ok? {
      var checked := Precheck(config, source.value, request).value;
      var visit :| PassedDedup(config, earlier, id, source.value, visit, checked);
      DedupRemembered(config, earlier, later, id, source.value, visit, checked);
    }
  }

  lemma {:induction false} DenialRemembered(config: Config, earlier: State, later: State, id: nat, visit: nat)
    requires Remembers(earlier, later) && DeniedDedup(config, earlier, id, visit)
    ensures DeniedDedup(config, later, id, visit)
  {
    assert later.requests[id] == earlier.requests[id];
    assert later.dedupVisits[visit] == earlier.dedupVisits[visit];
  }

  lemma {:induction false} PhaseRemembered(config: Config, earlier: State, later: State, id: nat, phase: Phase)
    requires Remembers(earlier, later) && id < |earlier.requests| && PhaseJustified(config, earlier, id, phase)
    ensures PhaseJustified(config, later, id, phase)
  {
    match phase {
      case Arrived =>
      case Limited(source, rate) =>
        LimiterRemembered(config, earlier, later, id, source, rate);
      case Between(source, rate, visit, checked) =>
        LimiterRemembered(config, earlier, later, id, source, rate);
        DedupRemembered(config, earlier, later, id, source, visit, checked);
      case Ready(source, rate, visit, job) =>
        EarnedRemembered(config, earlier, later, id, source, rate, visit, job);
      case Done(response) =>
        RecordedRemembered(config, earlier, later, id, response);
        if response == DUPLICATE {
          var visit :| DeniedDedup(config, earlier, id, visit);
          DenialRemembered(config, earlier, later, id, visit);
        }
    }
  }

  lemma {:induction false} TicketRemembered(config: Config, earlier: State, later: State, ticket: Ticket)
    requires Remembers(earlier, later) && TicketJustified(config, earlier, ticket)
    ensures TicketJustified(config, later, ticket)
  {
    match ticket.origin {
      case Http(id, source, rate, visit) =>
        EarnedRemembered(config, earlier, later, id, source, rate, visit, ticket.job);
      case Direct(_) =>
    }
  }

  /** If only request `id` moved, and its new phase and the new tickets are justified, all are. */
  lemma {:induction false} MoveJustifies(config: Config, state: State, after: State, id: nat)
    requires Justified(config, state) && Remembers(state, after)
    requires id < |state.phases| && after.requests == state.requests
    requires |after.phases| == |state.phases| && after.phases == state.phases[id := after.phases[id]]
    requires PhaseJustified(config, after, id, after.phases[id])
    requires state.accepted <= after.accepted
    requires forall i :: |state.accepted| <= i < |after.accepted| ==> TicketJustified(config, after, after.accepted[i])
    ensures Justified(config, after)
  {
    forall other | 0 <= other < |after.phases|
      ensures PhaseJustified(config, after, other, after.phases[other])
    {
      if other != id {
        PhaseRemembered(config, state, after, other, state.phases[other]);
      }
    }
    TicketsJustified(config, state, after);
  }

  lemma {:induction false} TicketsJustified(config: Config, state: State, after: State)
    requires Justified(config, state) && Remembers(state, after)
    requires state.accepted <= after.accepted
    requires forall i :: |state.accepted| <= i < |after.accepted| ==> TicketJustified(config, after, after.accepted[i])
    ensures forall i :: 0 <= i < |after.accepted| ==> TicketJustified(config, after, after.accepted[i])
  {
    forall i | 0 <= i < |state.accepted|
      ensures TicketJustified(config, after, after.accepted[i])
    {
      TicketRemembered(config, state, after, state.accepted[i]);
    }
  }

  /** A request that passed everything up to here is prepared or refused, justly either way. */
  lemma {:induction false} PreparedJustified(
    config: Config, state: State, id: nat, source: Source, rate: nat, visit: nat, checked: Checked)
    requires PassedLimiter(config, state, id, source, rate)
    requires PassedDedup(config, state, id, source, visit, checked) && PassedCooldown(state, id, checked)
    ensures PhaseJustified(config, state, id,
                           Prepared(config, state.requests[id], source, rate, visit, checked))
  {}

  lemma {:induction false} DedupStepJustifies(config: Config, state: State, id: nat)
    requires Justified(config, state) && Enabled(state, CheckDedup(id))
    ensures Justified(config, DedupStep(config, state, id))
  {
    var after, phase := DedupStep(config, state, id), state.phases[id];
    assert PhaseJustified(config, state, id, phase);
    LimiterRemembered(config, state, after, id, phase.source, phase.rate);
    DedupVisitJustified(config, state, id);
    MoveJustifies(config, state, after, id);
  }

  lemma {:induction false} DedupVisitJustified(config: Config, state: State, id: nat)
    requires Enabled(state, CheckDedup(id))
    requires PassedLimiter(config, DedupStep(config, state, id), id, state.phases[id].source, state.phases[id].rate)
    ensures var after := DedupStep(config, state, id); PhaseJustified(config, after, id, after.phases[id])
  {
    var after, request, phase := DedupStep(config, state, id), state.requests[id], state.phases[id];
    var checked := Precheck(config, phase.source, request);
    if checked.Ok? {
      var visit := |state.dedupVisits|;
      if after.dedupVisits[visit].granted {
        assert PassedDedup(config, after, id, phase.source, visit, checked.value);
        if !Cools(checked.value) {
          PreparedJustified(config, after, id, phase.source, phase.rate, visit, checked.value);
        }
      } else {
        assert DeniedDedup(config, after, id, visit);
      }
    }
  }

  lemma {:induction false} CooldownStepJustifies(config: Config, state: State, id: nat)
    requires Justified(config, state) && Enabled(state, CheckCooldown(id))
    ensures Justified(config, CooldownStep(config, state, id))
  {
    var after, phase := CooldownStep(config, state, id), state.phases[id];
    assert PhaseJustified(config, state, id, phase);
    LimiterRemembered(config, state, after, id, phase.source, phase.rate);
    DedupRemembered(config, state, after, id, phase.source, phase.visit, phase.checked);
    CooldownVisitJustified(config, state, id);
    MoveJustifies(config, state, after, id);
  }

  lemma {:induction false} CooldownVisitJustified(config: Config, state: State, id: nat)
    requires Enabled(state, CheckCooldown(id))
    requires var after, phase := CooldownStep(config, state, id), state.phases[id];
             && PassedLimiter(config, after, id, phase.source, phase.rate)
             && PassedDedup(config, after, id, phase.source, phase.visit, phase.checked)
    ensures var after := CooldownStep(config, state, id); PhaseJustified(config, after, id, after.phases[id])
  {
    var after, phase := CooldownStep(config, state, id), state.phases[id];
    var last := |state.cooldownVisits|;
    if after.cooldownVisits[last].granted {
      assert after.cooldownVisits[last] ==
             Visit(id, phase.checked.cooldownKey.value, state.requests[id].now, true);
      PreparedJustified(config, after, id, phase.source, phase.rate, phase.visit, phase.checked);
    }
  }

  lemma {:induction false} QueueStepJustifies(config: Config, state: State, id: nat)
    requires Justified(config, state) && Enabled(state, Enqueue(id))
    ensures Justified(config, QueueStep(config, state, id))
  {
    var after, phase := QueueStep(config, state, id), state.phases[id];
    assert PhaseJustified(config, state, id, phase);
    EarnedRemembered(config, state, after, id, phase.source, phase.rate, phase.visit, phase.job);
    MoveJustifies(config, state, after, id);
  }

  /** Steps that touch no handler: arrivals, direct events, the worker. */
  lemma {:induction false} OtherStepJustifies(config: Config, state: State, event: Event)
    requires Justified(config, state) && Enabled(state, event)
    requires !event.CheckRate? && !event.CheckDedup? && !event.CheckCooldown? && !event.Enqueue?
    ensures Justified(config, Step(config, state, event))
  {
    var after := Step(config, state, event);
    forall id | 0 <= id < |state.phases|
      ensures PhaseJustified(config, after, id, state.phases[id])
    {
      PhaseRemembered(config, state, after, id, state.phases[id]);
    }
    TicketsJustified(config, state, after);
  }

  lemma {:induction false} StepJustifies(config: Config, state: State, event: Event)
    requires Justified(config, state) && Enabled(state, event)
    ensures Justified(config, Step(config, state, event))
  {
    match event {
      case CheckRate(id) =>
        MoveJustifies(config, state, RateStep(config, state, id), id);
      case CheckDedup(id) =>
        DedupStepJustifies(config, state, id);
      case CheckCooldown(id) =>
        CooldownStepJustifies(config, state, id);
      case Enqueue(id) =>
        QueueStepJustifies(config, state, id);
      case _ =>
        OtherStepJustifies(config, state, event);
    }
  }

  // ----- The histories are genuine -----

  ghost predicate GenuineHistories(config: Config, state: State) {
    && RateLimiter.Genuine(config.perMinute, state.rates)
    && Honest(config.policy.dedupTtl, state.dedupVisits)
    && Honest(config.policy.cooldown, state.cooldownVisits)
  }

  lemma {:induction false} StepKeepsHistories(config: Config, state: State, event: Event)
    requires GenuineHistories(config, state) && Enabled(state, event)
    ensures GenuineHistories(config, Step(config, state, event))
  {
    match event {
      case CheckRate(id) => RateStepKeepsHistories(config, state, id);
      case CheckDedup(id) => DedupStepKeepsHistories(config, state, id);
      case CheckCooldown(id) => CooldownStepKeepsHistories(config, state, id);
      case _ =>
    }
  }

  lemma {:induction false} RateStepKeepsHistories(config: Config, state: State, id: nat)
    requires GenuineHistories(config, state) && Enabled(state, CheckRate(id))
    ensures GenuineHistories(config, RateStep(config, state, id))
  {
    var after := RateStep(config, state, id);
    if after.rates != state.rates {
      RateLimiter.GenuineSnoc(config.perMinute, state.rates, after.rates[|state.rates|]);
    }
  }

  lemma {:induction false} DedupStepKeepsHistories(config: Config, state: State, id: nat)
    requires GenuineHistories(config, state) && Enabled(state, CheckDedup(id))
    ensures GenuineHistories(config, DedupStep(config, state, id))
  {
    var after := DedupStep(config, state, id);
    if after.dedupVisits != state.dedupVisits {
      var visit := after.dedupVisits[|state.dedupVisits|];
      VisitRecorded(config.policy.dedupTtl, state.dedupVisits, id, visit.key, visit.now);
    }
  }

  lemma {:induction false} CooldownStepKeepsHistories(config: Config, state: State, id: nat)
    requires GenuineHistories(config, state) && Enabled(state, CheckCooldown(id))
    ensures GenuineHistories(config, CooldownStep(config, state, id))
  {
    var after := CooldownStep(config, state, id);
    var visit := after.cooldownVisits[|state.cooldownVisits|];
    VisitRecorded(config.policy.cooldown, state.cooldownVisits, id, visit.key, visit.now);
  }

  // ----- No request is queued twice -----

  /** Every HTTP job's request is done and answered `Queued`, and no two jobs have one request. */
  ghost predicate QueuedOnce(state: State) {
    && (forall i :: 0 <= i < |state.accepted| && state.accepted[i].origin.Http? ==>
          var id := state.accepted[i].origin.id;
          id < |state.phases| && state.phases[id].Done? && state.phases[id].response.Queued?)
    && (forall i, j :: 0 <= i < j < |state.accepted| && state.accepted[i].origin.Http?
                       && state.accepted[j].origin.Http? ==>
          state.accepted[i].origin.id != state.accepted[j].origin.id)
  }

  lemma {:induction false} StepKeepsQueuedOnce(config: Config, state: State, event: Event)
    requires QueuedOnce(state) && Enabled(state, event)
    ensures QueuedOnce(Step(config, state, event))
  {
    var after := Step(config, state, event);
    if event.Enqueue? {
      EnqueueKeepsQueuedOnce(config, state, event.id);
    } else {
      DoneStaysDone(config, state, event);
      assert state.accepted <= after.accepted;
    }
  }

  lemma {:induction false} DoneStaysDone(config: Config, state: State, event: Event)
    requires Enabled(state, event)
    ensures var after := Step(config, state, event);
            |state.phases| <= |after.phases|
            && forall id :: 0 <= id < |state.phases| && state.phases[id].Done? ==> after.phases[id] == state.phases[id]
  {}

  lemma {:induction false} EnqueueKeepsQueuedOnce(config: Config, state: State, id: nat)
    requires QueuedOnce(state) && Enabled(state, Enqueue(id))
    ensures QueuedOnce(QueueStep(config, state, id))
  {
    var after := QueueStep(config, state, id);
    assert forall i :: 0 <= i < |state.accepted| ==> after.accepted[i] == state.accepted[i];
  }

  // ----- Every request visits the first lock at most once -----

  ghost predicate VisitedOnce(state: State) {
    && (forall v :: 0 <= v < |state.dedupVisits| ==>
          var id := state.dedupVisits[v].caller;
          id < |state.phases| && PastLimiter(state.phases[id]))
    && (forall v, w :: 0 <= v < w < |state.dedupVisits| ==> state.dedupVisits[v].caller != state.dedupVisits[w].caller)
  }

  lemma {:induction false} StepKeepsVisitedOnce(config: Config, state: State, event: Event)
    requires VisitedOnce(state) && Enabled(state, event)
    ensures VisitedOnce(Step(config, state, event))
  {
    PastLimiterStays(config, state, event);
    NewVisitPassesLimiter(config, state, event);
    var after := Step(config, state, event);
    assert state.dedupVisits <= after.dedupVisits;
  }

  predicate PastLimiter(phase: Phase) { !phase.Arrived? && !phase.Limited? }

  lemma {:induction false} PastLimiterStays(config: Config, state: State, event: Event)
    requires Enabled(state, event)
    ensures var after := Step(config, state, event);
            && |state.phases| <= |after.phases|
            && (forall id :: 0 <= id < |state.phases| && PastLimiter(state.phases[id]) ==>
                  PastLimiter(after.phases[id]))
  {}

  lemma {:induction false} NewVisitPassesLimiter(config: Config, state: State, event: Event)
    requires Enabled(state, event)
    ensures var after := Step(config, state, event);
            forall v :: |state.dedupVisits| <= v < |after.dedupVisits| ==>
              && event == CheckDedup(after.dedupVisits[v].caller) && v == |state.dedupVisits|
              && event.id < |after.phases| && PastLimiter(after.phases[event.id])
  {
    if event.CheckDedup? {
      DedupStepVisits(config, state, event.id);
    } else {
      assert Step(config, state, event).dedupVisits == state.dedupVisits;
    }
  }

  lemma {:induction false} DedupStepVisits(config: Config, state: State, id: nat)
    requires Enabled(state, CheckDedup(id))
    ensures var after := DedupStep(config, state, id);
            && |after.phases| == |state.phases| && PastLimiter(after.phases[id])
            && |state.dedupVisits| <= |after.dedupVisits| <= |state.dedupVisits| + 1
            && (|after.dedupVisits| > |state.dedupVisits| ==> after.dedupVisits[|state.dedupVisits|].caller == id)
  {}

  // ----- Every visit's key belongs to its request's source -----

  /** The source behind a visit, if its request has one. */
  ghost function SourceOf(config: Config, state: State, visit: Visit): Option<Source> {
    if visit.caller < |state.requests| then Resolve(config, state.requests[visit.caller]) else None
  }

  ghost predicate VisitsOwned(config: Config, state: State) {
    && (forall v :: v in state.dedupVisits ==>
          SourceOf(config, state, v).Some? && OwnsDedupKey(SourceOf(config, state, v).value, v.key))
    && (forall v :: v in state.cooldownVisits ==>
          SourceOf(config, state, v).Some? && OwnsCooldownKey(SourceOf(config, state, v).value, v.key))
  }

  /** A step that adds only owned visits keeps all owned. */
  lemma {:induction false} AddedVisitsOwned(config: Config, state: State, after: State)
    requires VisitsOwned(config, state) && state.requests <= after.requests
    requires forall v :: v in after.dedupVisits && v !in state.dedupVisits ==>
               SourceOf(config, after, v).Some? && OwnsDedupKey(SourceOf(config, after, v).value, v.key)
    requires forall v :: v in after.cooldownVisits && v !in state.cooldownVisits ==>
               SourceOf(config, after, v).Some? && OwnsCooldownKey(SourceOf(config, after, v).value, v.key)
    ensures VisitsOwned(config, after)
  {
    forall v | SourceOf(config, state, v).Some?
      ensures SourceOf(config, after, v) == SourceOf(config, state, v)
    {
      assert after.requests[v.caller] == state.requests[v.caller];
    }
  }

  lemma {:induction false} CheckedKeysOwned(config: Config, source: Source, request: Request, checked: Checked)
    requires Precheck(config, source, request) == Ok(checked)
    ensures OwnsDedupKey(source, checked.dedupKey)
    ensures checked.cooldownKey.Some? ==> OwnsCooldownKey(source, checked.cooldownKey.value)
  {
    KeysAreOwned(source, request.headers, request.body.value);
  }

  lemma {:induction false} DedupStepOwned(config: Config, state: State, id: nat)
    requires Justified(config, state) && VisitsOwned(config, state) && Enabled(state, CheckDedup(id))
    ensures VisitsOwned(config, DedupStep(config, state, id))
  {
    var after, phase := DedupStep(config, state, id), state.phases[id];
    assert PhaseJustified(config, state, id, phase);
    var checked := Precheck(config, phase.source, state.requests[id]);
    if checked.Ok? {
      CheckedKeysOwned(config, phase.source, state.requests[id], checked.value);
    }
    AddedVisitsOwned(config, state, after);
  }

  lemma {:induction false} CooldownStepOwned(config: Config, state: State, id: nat)
    requires Justified(config, state) && VisitsOwned(config, state) && Enabled(state, CheckCooldown(id))
    ensures VisitsOwned(config, CooldownStep(config, state, id))
  {
    var after, phase := CooldownStep(config, state, id), state.phases[id];
    assert PhaseJustified(config, state, id, phase);
    CheckedKeysOwned(config, phase.source, state.requests[id], phase.checked);
    AddedVisitsOwned(config, state, after);
  }

  lemma {:induction false} StepKeepsOwned(config: Config, state: State, event: Event)
    requires Justified(config, state) && VisitsOwned(config, state) && Enabled(state, event)
    ensures VisitsOwned(config, Step(config, state, event))
  {
    match event {
      case CheckDedup(id) => DedupStepOwned(config, state, id);
      case CheckCooldown(id) => CooldownStepOwned(config, state, id);
      case _ => AddedVisitsOwned(config, state, Step(config, state, event));
    }
  }

  // ----- Whole runs -----

  ghost predicate Invariant(config: Config, state: State) {
    && Conserved(config, state) && Justified(config, state) && GenuineHistories(config, state)
    && QueuedOnce(state) && VisitedOnce(state) && VisitsOwned(config, state)
  }

  lemma {:induction false} RunKeepsInvariant(config: Config, before: State, events: seq<Event>, after: State)
    requires Invariant(config, before) && Reaches(config, before, events, after)
    ensures Invariant(config, after)
    decreases |events|
  {
    if events != [] {
      StepConserves(config, before, events[0]);
      StepJustifies(config, before, events[0]);
      StepKeepsHistories(config, before, events[0]);
      StepKeepsQueuedOnce(config, before, events[0]);
      StepKeepsVisitedOnce(config, before, events[0]);
      StepKeepsOwned(config, before, events[0]);
      RunKeepsInvariant(config, Step(config, before, events[0]), events[1..], after);
    }
  }

  /**
    In every run the jobs answered ok are, in order, those the worker finished (published
    or not), the one it holds and those still queued, and the queue keeps its capacity.
   */
  lemma {:induction false} ServeConserves(config: Config, events: seq<Event>, after: State)
    requires Reaches(config, INIT, events, after)
    ensures TicketJobs(after.accepted) ==
            ProcessedJobs(after.processed) + InFlightJobs(after.inFlight) + after.queue
    ensures |after.queue| <= config.queueCapacity
  {
    RunKeepsInvariant(config, INIT, events, after);
  }

  /** Every HTTP job passed limiter, checks and store, and goes where its first matching route says. */
  lemma {:induction false} HttpJobsEarned(config: Config, events: seq<Event>, after: State, i: nat)
    requires Reaches(config, INIT, events, after)
    requires i < |after.accepted| && after.accepted[i].origin.Http?
    ensures var Ticket(Http(id, source, rate, visit), job) := after.accepted[i];
            && Earned(config, after, id, source, rate, visit, job)
            && (config.routes == [] ==> job.topic == SourceTopic(config, Name(source)))
            && (config.routes != [] ==>
                  exists route :: IsFirstMatch(config.routes, Name(source), job.envelope.eventType, route)
                                  && job.topic == route.targetTopic)
  {
    RunKeepsInvariant(config, INIT, events, after);
    var Ticket(Http(id, source, rate, visit), job) := after.accepted[i];
    assert TicketJustified(config, after, after.accepted[i]);
    PreparedTopic(config, source, after.requests[id], Precheck(config, source, after.requests[id]).value);
  }

  // ----- Replayed Linear deliveries -----

  /** The deduplication key and timestamp of a Linear request. */
  ghost predicate SameDelivery(config: Config, a: Request, b: Request) {
    var ca, cb := Precheck(config, Linear, a), Precheck(config, Linear, b);
    && ca.Ok? && cb.Ok? && ca.value.dedupKey == cb.value.dedupKey
    && Timestamps.ExtractEpoch(ca.value.payload) == Timestamps.ExtractEpoch(cb.value.payload)
  }

  /**
    With the timestamp window enforced and twice the window plus the clock lag below the
    deduplication lifetime, no two queued jobs come from one Linear delivery.
   */
  lemma {:induction false} LinearDeliveryQueuedOnce(
    config: Config, events: seq<Event>, after: State, lag: nat, i: nat, j: nat)
    requires Reaches(config, INIT, events, after)
    requires config.enforceLinearWindow && 0 < config.linearWindowSeconds <= I64_MAX
    requires 2 * config.linearWindowSeconds + lag < config.policy.dedupTtl
    requires VisitLag(after.dedupVisits, lag)
    requires forall r :: r in after.requests ==> Timestamps.InClockRange(r.now, config.linearWindowSeconds)
    requires i < j < |after.accepted|
    requires after.accepted[i].origin.Http? && after.accepted[i].origin.source == Linear
    requires after.accepted[j].origin.Http? && after.accepted[j].origin.source == Linear
    ensures var a, b := after.accepted[i].origin.id, after.accepted[j].origin.id;
            a < |after.requests| && b < |after.requests|
            && !SameDelivery(config, after.requests[a], after.requests[b])
  {
    RunKeepsInvariant(config, INIT, events, after);
    var a, b := after.accepted[i].origin, after.accepted[j].origin;
    assert TicketJustified(config, after, after.accepted[i]) && TicketJustified(config, after, after.accepted[j]);
    if SameDelivery(config, after.requests[a.id], after.requests[b.id]) {
      OneDelivery(config, after, lag, a.id, b.id, a.visit, b.visit);
      assert false;
    }
  }

  /** Spacing at the store's first lock against the width of the timestamp window. */
  lemma {:induction false} OneDelivery(
    config: Config, state: State, lag: nat, a: nat, b: nat, va: nat, vb: nat)
    requires GenuineHistories(config, state) && VisitLag(state.dedupVisits, lag) && a != b
    requires config.enforceLinearWindow && 0 < config.linearWindowSeconds <= I64_MAX
    requires a < |state.requests| && b < |state.requests| && SameDelivery(config, state.requests[a], state.requests[b])
    requires PassedDedup(config, state, a, Linear, va, Precheck(config, Linear, state.requests[a]).value)
    requires PassedDedup(config, state, b, Linear, vb, Precheck(config, Linear, state.requests[b]).value)
    requires Timestamps.InClockRange(state.requests[a].now, config.linearWindowSeconds)
    requires Timestamps.InClockRange(state.requests[b].now, config.linearWindowSeconds)
    ensures config.policy.dedupTtl <= 2 * config.linearWindowSeconds + lag
  {
    var ra, rb := state.requests[a], state.requests[b];
    var ca, cb := Precheck(config, Linear, ra).value, Precheck(config, Linear, rb).value;
    var window := config.linearWindowSeconds;
    GrantsApart(config.policy.dedupTtl, state.dedupVisits, lag, va, vb);
    Timestamps.WindowBoundsReplay(cb.payload, ca.payload, rb.now, ra.now, window);
    Timestamps.WindowBoundsReplay(ca.payload, cb.payload, ra.now, rb.now, window);
  }

  lemma {:induction false} DedupKeyNonEmpty(source: Source, headers: Headers, payload: Value)
    ensures DedupKey(source, headers, payload).Ok? ==> DedupKey(source, headers, payload).value != ""
  {
    KeysAreOwned(source, headers, payload);
  }

  // ----- Failed deliveries shut out their retries -----

  /**
    The key is recorded before the job is prepared and queued. So a request that passed
    its checks and was then refused, found the queue full or closed, or was cooling down
    keeps every other request with its key out of the queue for the lifetime, less the lag.
   */
  lemma {:induction false} FailedDeliveryBlocksRetry(
    config: Config, events: seq<Event>, after: State, lag: nat, id: nat, source: Source, key: string, i: nat)
    requires Reaches(config, INIT, events, after) && VisitLag(after.dedupVisits, lag)
    requires id < |after.requests| == |after.phases| && after.phases[id].Done?
    requires AfterRecording(after.phases[id].response) && !after.phases[id].response.Queued?
    requires Resolve(config, after.requests[id]) == Some(source) && PrintsKey(config, after.requests[id], source, key)
    requires i < |after.accepted| && after.accepted[i].origin.Http?
    ensures var retry := after.accepted[i].origin;
            && retry.id < |after.requests|
            && (PrintsKey(config, after.requests[retry.id], retry.source, key) ==>
                  Distance(after.requests[id].now, after.requests[retry.id].now) >= config.policy.dedupTtl - lag)
  {
    RunKeepsInvariant(config, INIT, events, after);
    var retry := after.accepted[i].origin;
    TicketGranted(config, after, i, key);
    DoneGranted(config, after, id, source, key);
    if PrintsKey(config, after.requests[retry.id], retry.source, key) {
      KeysApart(config.policy.dedupTtl, after, lag, id, retry.id, key);
    }
  }

  /** The request passes its checks and has this deduplication key. */
  ghost predicate PrintsKey(config: Config, request: Request, source: Source, key: string) {
    var checked := Precheck(config, source, request);
    checked.Ok? && checked.value.dedupKey == key
  }

  ghost predicate GrantedKey(state: State, id: nat, key: string)
    requires id < |state.requests|
  {
    exists v :: 0 <= v < |state.dedupVisits| && state.dedupVisits[v] == Visit(id, key, state.requests[id].now, true)
  }

  lemma {:induction false} TicketGranted(config: Config, state: State, i: nat, key: string)
    requires Justified(config, state) && i < |state.accepted| && state.accepted[i].origin.Http?
    ensures var origin := state.accepted[i].origin;
            origin.id < |state.requests|
            && (PrintsKey(config, state.requests[origin.id], origin.source, key) ==> GrantedKey(state, origin.id, key))
  {
    assert TicketJustified(config, state, state.accepted[i]);
  }

  lemma {:induction false} DoneGranted(config: Config, state: State, id: nat, source: Source, key: string)
    requires Justified(config, state) && id < |state.requests| && state.phases[id].Done?
    requires AfterRecording(state.phases[id].response) && Resolve(config, state.requests[id]) == Some(source)
    requires PrintsKey(config, state.requests[id], source, key)
    ensures GrantedKey(state, id, key)
  {
    assert PhaseJustified(config, state, id, state.phases[id]);
  }

  lemma {:induction false} KeysApart(ttl: int, state: State, lag: nat, a: nat, b: nat, key: string)
    requires Honest(ttl, state.dedupVisits) && VisitLag(state.dedupVisits, lag)
    requires a != b && a < |state.requests| && b < |state.requests|
    requires GrantedKey(state, a, key) && GrantedKey(state, b, key)
    ensures Distance(state.requests[a].now, state.requests[b].now) >= ttl - lag
  {
    var nowA, nowB := state.requests[a].now, state.requests[b].now;
    var va :| 0 <= va < |state.dedupVisits| && state.dedupVisits[va] == Visit(a, key, nowA, true);
    var vb :| 0 <= vb < |state.dedupVisits| && state.dedupVisits[vb] == Visit(b, key, nowB, true);
    GrantsApart(ttl, state.dedupVisits, lag, va, vb);
  }
}
