/**
  The serve role: the webhook handler's admission order, first-match routing, and the
  bounded queue between the handlers and the publish worker.
 */
module Serve {
  import opened Wrappers
  import opened Text
  import opened Json
  import opened Envelopes
  import opened Plugins
  import opened Sources
  import Sanitize
  import Timestamps
  import Glob
  import Idempotency
  import RateLimiter
  import opened Kafka
  import opened Retry
  import opened Arithmetic

  datatype Route = Route(id: string, sourceMatch: string, eventTypePattern: string, targetTopic: string)

  datatype Config = Config(
    enabledSources: seq<string>,
    sourceTopicPrefix: string,
    sourceTopics: seq<string>,
    perMinute: U32,
    policy: Idempotency.Policy,
    enforceLinearWindow: bool,
    linearWindowSeconds: int,
    patterns: seq<Sanitize.Pattern>,
    plugins: seq<Plugin>,
    adapterId: Option<string>,
    routes: seq<Route>,
    queueCapacity: nat)

  /** The outcome of the source's signature or token check, which is not modelled further. */
  datatype SignatureCheck = Authentic | NotAuthentic(error: ValidationError)

  /** An HTTP request with its clock reading and the fresh identifiers it would be given. */
  datatype Request = Request(
    path: string, headers: Headers, signature: SignatureCheck, body: Option<Value>,
    now: int, eventId: string, traceId: string, receivedAt: string)

  datatype Job = Job(topic: string, envelope: Envelope)

  datatype Response =
    | NotFound
    | TooManyRequests
    | Refused(error: ValidationError)
    | Ignored(decision: Idempotency.Decision)
    | Queued(id: string)
    | QueueFull
    | QueueClosed

  // ----- The stages of the handler -----

  function Resolve(config: Config, request: Request): Option<Source> {
    match NormalizeSourceName(request.path)
    case None => None
    case Some(normalized) =>
      if ToLower(Trim(normalized)) !in config.enabledSources then None else HandlerFor(normalized)
  }

  datatype Checked = Checked(eventType: string, dedupKey: string, cooldownKey: Option<string>, payload: Value)

  /** Everything between the rate limiter and the idempotency store. */
  function Precheck(config: Config, source: Source, request: Request): Result<Checked, ValidationError> {
    match request.signature
    case NotAuthentic(error) => Err(error)
    case Authentic =>
      match request.body
      case None => Err(BadRequest("invalid json payload"))
      case Some(payload) =>
        if source.Linear? && !Timestamps.VerifyWindow(
             payload, request.now, config.linearWindowSeconds, config.enforceLinearWindow)
        then Err(Unauthorized)
        else
          match EventType(source, request.headers, payload)
          case Err(error) => Err(error)
          case Ok(eventType) =>
            match DedupKey(source, request.headers, payload)
            case Err(error) => Err(error)
            case Ok(key) => Ok(Checked(eventType, key, CooldownKey(source, payload), payload))
  }

  ghost predicate RouteMatches(route: Route, source: string, eventType: string) {
    Glob.Matches(route.sourceMatch, source) && Glob.Matches(route.eventTypePattern, eventType)
  }

  /** `route` is the first of `routes` that matches. */
  ghost predicate IsFirstMatch(routes: seq<Route>, source: string, eventType: string, route: Route) {
    exists i :: 0 <= i < |routes| && routes[i] == route && RouteMatches(route, source, eventType)
                && forall j :: 0 <= j < i ==> !RouteMatches(routes[j], source, eventType)
  }

  ghost function FirstMatch(routes: seq<Route>, source: string, eventType: string): Option<Route> {
    if routes == [] then None
    else if RouteMatches(routes[0], source, eventType) then Some(routes[0])
    else FirstMatch(routes[1..], source, eventType)
  }

  lemma {:induction false} FirstMatchIsFirst(routes: seq<Route>, source: string, eventType: string)
    ensures var found := FirstMatch(routes, source, eventType);
            && (found.Some? ==> IsFirstMatch(routes, source, eventType, found.value))
            && (found.None? ==> forall i :: 0 <= i < |routes| ==> !RouteMatches(routes[i], source, eventType))
  {
    if routes != [] && !RouteMatches(routes[0], source, eventType) {
      var rest := routes[1..];
      FirstMatchIsFirst(rest, source, eventType);
      var found := FirstMatch(routes, source, eventType);
      if found.Some? {
        var i :| 0 <= i < |rest| && rest[i] == found.value
                 && forall j :: 0 <= j < i ==> !RouteMatches(rest[j], source, eventType);
        assert routes[i + 1] == found.value;
        forall j | 0 <= j < i + 1
          ensures !RouteMatches(routes[j], source, eventType)
        {
          if j > 0 { assert routes[j] == rest[j - 1]; }
        }
      } else {
        forall i | 0 <= i < |routes|
          ensures !RouteMatches(routes[i], source, eventType)
        {
          if i > 0 { assert routes[i] == rest[i - 1]; }
        }
      }
    }
  }

  method ResolveServeRoute(routes: seq<Route>, source: string, eventType: string) returns (found: Option<Route>)
    ensures found == FirstMatch(routes, source, eventType)
  {
    for i := 0 to |routes|
      invariant FirstMatch(routes, source, eventType) == FirstMatch(routes[i..], source, eventType)
    {
      assert routes[i..][1..] == routes[i + 1..];
      var sourceHit := Glob.WildcardMatches(routes[i].sourceMatch, source);
      if sourceHit {
        var typeHit := Glob.WildcardMatches(routes[i].eventTypePattern, eventType);
        if typeHit {
          return Some(routes[i]);
        }
      }
    }
    return None;
  }

  predicate TopicMatchesSource(topic: string, source: string) {
    var normalized := ToLower(Trim(topic));
    normalized == source || EndsWith(normalized, "." + source)
  }

  function TopicAmong(topics: seq<string>, source: string): Option<string> {
    if topics == [] then None
    else if TopicMatchesSource(topics[0], source) then Some(topics[0])
    else TopicAmong(topics[1..], source)
  }

  function SourceTopic(config: Config, source: string): string {
    var normalized := ToLower(Trim(source));
    match TopicAmong(config.sourceTopics, normalized)
    case Some(topic) => topic
    case None => config.sourceTopicPrefix + "." + normalized
  }

  function BuildEventMeta(traceId: Option<string>, adapterId: Option<string>, routeKey: Option<string>,
                          flags: seq<string>): Option<EventMeta>
  {
    if traceId.None? && adapterId.None? && routeKey.None? && flags == [] then None
    else Some(EventMeta(traceId, adapterId, routeKey, flags))
  }

  /** The job built once routing is known. */
  function BuildJob(config: Config, source: Source, request: Request, route: Option<Route>,
                    shaped: (string, Value, seq<string>)): Job
  {
    var routeKey := if route.Some? then Some(route.value.id) else None;
    var traceId := if routeKey.Some? || config.adapterId.Some? then Some(request.traceId) else None;
    Job(if route.Some? then route.value.targetTopic else SourceTopic(config, Name(source)),
        Envelope(request.eventId, Name(source), shaped.0, request.receivedAt, shaped.1,
                 BuildEventMeta(traceId, config.adapterId, routeKey, shaped.2)))
  }

  /** Sanitize, then run the plugins. */
  function Shape(
    config: Config, source: Source, checked: Checked): Result<(string, Value, seq<string>), ValidationError> {
    match Sanitize.Sanitized(config.patterns, Name(source), checked.payload)
    case Err(_) => Err(BadRequest("invalid payload"))
    case Ok(sanitized) =>
      match ServeOutcome(config.plugins, checked.eventType, sanitized)
      case Err(pointer) => Err(BadRequest(pointer))
      case Ok(shaped) => Ok(shaped)
  }

  /** Everything between the idempotency store and the queue. */
  ghost function Prepare(config: Config, source: Source, request: Request, checked: Checked)
    : Result<Job, ValidationError>
  {
    match Shape(config, source, checked)
    case Err(error) => Err(error)
    case Ok(shaped) =>
      var route := FirstMatch(config.routes, Name(source), shaped.0);
      if route.None? && config.routes != [] then Err(BadRequest("no matching serve route"))
      else Ok(BuildJob(config, source, request, route, shaped))
  }

  /** A prepared job goes to its first matching route, and to the source topic only without any routes. */
  lemma {:induction false} PreparedTopic(config: Config, source: Source, request: Request, checked: Checked)
    requires Prepare(config, source, request, checked).Ok?
    ensures var job := Prepare(config, source, request, checked).value;
            && job.envelope.source == Name(source) && job.envelope.id == request.eventId
            && (config.routes == [] ==> job.topic == SourceTopic(config, Name(source)))
            && (config.routes != [] ==>
                  exists route :: IsFirstMatch(config.routes, Name(source), job.envelope.eventType, route)
                                  && job.topic == route.targetTopic)
  {
    FirstMatchIsFirst(config.routes, Name(source), Shape(config, source, checked).value.0);
  }

  // ----- Events from the other ingress adapters -----

  /** An event from a websocket frame, an MCP call or a Kafka message; no store, no limiter. */
  datatype DirectEvent = DirectEvent(
    source: string, payload: Value, eventTypeOverride: Option<string>, adapterId: string, plugins: seq<Plugin>,
    eventId: string, traceId: string, receivedAt: string)

  datatype DirectError =
    | EmptySource | SourceNotEnabled | EmptyEventType | NoEventType | SanitizerRejected
    | MissingField(pointer: string) | NotEnqueued

  function DirectEventType(event: DirectEvent, normalized: string): Result<string, DirectError> {
    match event.eventTypeOverride
    case Some(value) => if Trim(value) == "" then Err(EmptyEventType) else Ok(Trim(value))
    case None =>
      (match HandlerFor(normalized)
       case None => Ok("event")
       case Some(source) =>
         (match EventType(source, map[], event.payload)
          case Err(_) => Err(NoEventType)
          case Ok(eventType) => Ok(eventType)))
  }

  /** Source, event type, sanitizer and plugins of a direct event; the source comes back normalized. */
  function ShapeDirect(config: Config, event: DirectEvent)
    : Result<(string, (string, Value, seq<string>)), DirectError>
  {
    match NormalizeSourceName(event.source)
    case None => Err(EmptySource)
    case Some(normalized) =>
      if ToLower(Trim(normalized)) !in config.enabledSources then Err(SourceNotEnabled)
      else
        match DirectEventType(event, normalized)
        case Err(error) => Err(error)
        case Ok(eventType) =>
          match Sanitize.Sanitized(config.patterns, normalized, event.payload)
          case Err(_) => Err(SanitizerRejected)
          case Ok(sanitized) =>
            match ServeOutcome(event.plugins, eventType, sanitized)
            case Err(pointer) => Err(MissingField(pointer))
            case Ok(shaped) => Ok((normalized, shaped))
  }

  function BuildDirectJob(config: Config, event: DirectEvent, source: string, route: Option<Route>,
                          shaped: (string, Value, seq<string>)): Job
  {
    Job(if route.Some? then route.value.targetTopic else SourceTopic(config, source),
        Envelope(event.eventId, source, shaped.0, event.receivedAt, shaped.1,
                 BuildEventMeta(Some(event.traceId), Some(event.adapterId),
                                if route.Some? then Some(route.value.id) else None, shaped.2)))
  }

  ghost function PrepareDirect(config: Config, event: DirectEvent): Result<Job, DirectError> {
    match ShapeDirect(config, event)
    case Err(error) => Err(error)
    case Ok((source, shaped)) =>
      Ok(BuildDirectJob(config, event, source, FirstMatch(config.routes, source, shaped.0), shaped))
  }

  /**
    Unlike the webhook handler, a direct event that no route matches is not refused: it
    falls back to its source topic even when routes exist.
   */
  lemma {:induction false} DirectTopic(config: Config, event: DirectEvent)
    requires PrepareDirect(config, event).Ok?
    ensures var job := PrepareDirect(config, event).value;
            var source, eventType := job.envelope.source, job.envelope.eventType;
            || (exists route :: IsFirstMatch(config.routes, source, eventType, route) && job.topic == route.targetTopic)
            || ((forall i :: 0 <= i < |config.routes| ==> !RouteMatches(config.routes[i], source, eventType))
                && job.topic == SourceTopic(config, source))
  {
    var (source, shaped) := ShapeDirect(config, event).value;
    FirstMatchIsFirst(config.routes, source, shaped.0);
  }

  // ----- The publish worker -----

  datatype Processed = Processed(job: Job, published: bool)

  function RepliesTo(replies: seq<seq<SendOutcome>>, i: nat): seq<SendOutcome> {
    if i < |replies| then replies[i] else []
  }

  /** Publishes the received jobs one after the other; a job that fails is logged and dropped. */
  method RunPublishWorker(received: seq<Job>, maxRetries: U32, base: U64, cap: U64,
                          replies: seq<seq<SendOutcome>>)
    returns (processed: seq<Processed>)
    ensures |processed| == |received|
    ensures forall i :: 0 <= i < |received| ==>
              processed[i] == Processed(received[i], Succeeds(maxRetries, RepliesTo(replies, i)))
  {
    processed := [];
    for i := 0 to |received|
      invariant |processed| == i
      invariant forall j :: 0 <= j < i ==>
                  processed[j] == Processed(received[j], Succeeds(maxRetries, RepliesTo(replies, j)))
    {
      var ok, _, _ := PublishWithRetry(maxRetries, base, cap, RepliesTo(replies, i));
      processed := processed + [Processed(received[i], ok)];
    }
  }

  // ----- The source's handler -----

  /** The shared state a handler works on: limiter, store and the sending half of the queue. */
  class AppState {
    const config: Config
    const limiter: RateLimiter.SourceRateLimiter
    const store: Idempotency.IdempotencyStore
    var queue: seq<Job>
    var closed: bool

    ghost predicate Valid()
      reads this, limiter, store
    {
      && limiter.Valid() && limiter.limitPerMinute == config.perMinute
      && store.Valid() && store.policy == config.policy
      && |queue| <= config.queueCapacity
    }

    constructor (config: Config)
      ensures Valid() && this.config == config && queue == [] && !closed
      ensures limiter.history == [] && store.history == []
      ensures fresh(limiter) && fresh(store)
    {
      this.config := config;
      limiter := new RateLimiter.SourceRateLimiter(config.perMinute);
      store := new Idempotency.IdempotencyStore(config.policy.dedupTtl, config.policy.cooldown);
      queue, closed := [], false;
    }

    method TrySend(job: Job) returns (response: Response)
      requires Valid()
      modifies this`queue
      ensures Valid()
      ensures response == if closed then QueueClosed
                          else if |old(queue)| == config.queueCapacity then QueueFull
                          else Queued(job.envelope.id)
      ensures queue == if response.Queued? then old(queue) + [job] else old(queue)
    {
      if closed {
        return QueueClosed;
      }
      if |queue| == config.queueCapacity {
        return QueueFull;
      }
      queue := queue + [job];
      return Queued(job.envelope.id);
    }

    /** Sanitize, plugins and routing, after the store accepted. */
    method PrepareJob(source: Source, request: Request, checked: Checked) returns (job: Result<Job, ValidationError>)
      ensures job == Prepare(config, source, request, checked)
    {
      var sanitized := Sanitize.SanitizePayload(config.patterns, Name(source), checked.payload);
      if sanitized.Err? {
        return Err(BadRequest("invalid payload"));
      }
      var shaped := ApplyServePlugins(config.plugins, checked.eventType, sanitized.value);
      if shaped.Err? {
        return Err(BadRequest(shaped.error));
      }
      var route := ResolveServeRoute(config.routes, Name(source), shaped.value.0);
      if route.None? && config.routes != [] {
        return Err(BadRequest("no matching serve route"));
      }
      return Ok(BuildJob(config, source, request, route, shaped.value));
    }

    /**
      One request from start to finish: the limiter's answer, then the store's, then the
      queue's. A request that stops early has touched only the stages before.
     */
    method WebhookHandler(request: Request) returns (response: Response)
      requires Valid()
      modifies this`queue, limiter, store
      ensures Valid()
      ensures var source := Resolve(config, request);
              && (response == NotFound <==> source.None?)
              && (source.None? ==> limiter.history == old(limiter.history) && store.history == old(store.history))
              && (source.Some? ==>
                    && limiter.history == old(limiter.history) +
                         [RateLimiter.Entry(RateLimiter.Request(Name(source.value), request.now),
                                            response != TooManyRequests)]
                    && StoreStage(old(store.history), source.value, request, response)
                    && QueueStage(old(queue), source.value, request, response))
      ensures response == NotFound ==> queue == old(queue)
    {
      var resolved := Resolve(config, request);
      if resolved.None? {
        return NotFound;
      }
      var source := resolved.value;
      var allowed := limiter.Allow(Name(source), request.now);
      if !allowed {
        return TooManyRequests;
      }
      var checked := Precheck(config, source, request);
      if checked.Err? {
        return Refused(checked.error);
      }
      var decision := store.Check(checked.value.dedupKey, checked.value.cooldownKey, request.now);
      if decision != Idempotency.Accept {
        return Ignored(decision);
      }
      response := SendAccepted(source, request, checked.value);
    }

    /** The handler's tail, after the store accepted: prepare the job and try to send it. */
    method SendAccepted(source: Source, request: Request, checked: Checked) returns (response: Response)
      requires Valid()
      modifies this`queue
      ensures Valid() && Sent(old(queue), source, request, checked, response)
    {
      var job := PrepareJob(source, request, checked);
      if job.Err? {
        return Refused(job.error);
      }
      response := TrySend(job.value);
    }

    /** `enqueue_prevalidated_event`: shape, route and send, without limiter or store. */
    method EnqueuePrevalidated(event: DirectEvent) returns (result: Result<string, DirectError>)
      requires Valid()
      modifies this`queue
      ensures Valid()
      ensures var job := PrepareDirect(config, event);
              && (job.Err? ==> result == Err(job.error) && queue == old(queue))
              && (job.Ok? && result.Err? ==> result.error == NotEnqueued && queue == old(queue)
                                             && (closed || |old(queue)| == config.queueCapacity))
              && (job.Ok? && result.Ok? ==> result.value == event.eventId && queue == old(queue) + [job.value])
    {
      var shape := ShapeDirect(config, event);
      if shape.Err? {
        return Err(shape.error);
      }
      var (source, shaped) := shape.value;
      var route := ResolveServeRoute(config.routes, source, shaped.0);
      var response := TrySend(BuildDirectJob(config, event, source, route, shaped));
      return if response.Queued? then Ok(event.eventId) else Err(NotEnqueued);
    }

    /** The store was consulted exactly when the request was let in and passed the checks. */
    ghost predicate StoreStage(before: seq<Idempotency.Entry>, source: Source, request: Request, response: Response)
      reads this, limiter, store
    {
      var checked := Precheck(config, source, request);
      if response == TooManyRequests || checked.Err? then
        store.history == before && (response != TooManyRequests ==> response == Refused(checked.error))
      else
        var call := Idempotency.Call(checked.value.dedupKey, checked.value.cooldownKey, request.now);
        && |store.history| == |before| + 1 && store.history[..|before|] == before
        && store.history[|before|].call == call
        && (response.Ignored? <==> store.history[|before|].decision != Idempotency.Accept)
        && (response.Ignored? ==> response.decision == store.history[|before|].decision)
    }

    /** A request the store accepted is refused by its preparation, or its job is sent to the queue. */
    ghost predicate QueueStage(before: seq<Job>, source: Source, request: Request, response: Response)
      reads this
    {
      var checked := Precheck(config, source, request);
      if response == TooManyRequests || checked.Err? || response.Ignored? then queue == before
      else Sent(before, source, request, checked.value, response)
    }

    ghost predicate Sent(before: seq<Job>, source: Source, request: Request, checked: Checked, response: Response)
      reads this
    {
      var job := Prepare(config, source, request, checked);
      if job.Err? then response == Refused(job.error) && queue == before
      else
        && response == (if closed then QueueClosed
                        else if |before| == config.queueCapacity then QueueFull
                        else Queued(request.eventId))
        && queue == if response.Queued? then before + [job.value] else before
    }
  }
}
