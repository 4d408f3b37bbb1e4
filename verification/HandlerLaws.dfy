/** What the stages of the serve handlers accept, refuse and build, said apart from the stages themselves. */
module HandlerLaws {
  import opened Wrappers
  import opened Text
  import opened Json
  import opened Envelopes
  import opened Plugins
  import opened Sources
  import opened Serve
  import SourceLaws
  import Sanitize
  import Timestamps

  // ----- Who is asked -----

  /** A path leads to a source exactly when it is its name, up to case and blanks, and the source is enabled. */
  lemma {:induction false} ResolvedExactly(config: Config, request: Request, source: Source, name: string)
    requires SourceLaws.Named(source, name)
    ensures Resolve(config, request) == Some(source) <==>
            ToLower(Trim(request.path)) == name && name in config.enabledSources
  {
    if ToLower(Trim(request.path)) == name {
      NameIsStable(source, name);
    }
  }

  lemma {:induction false} NameIsStable(source: Source, name: string)
    requires SourceLaws.Named(source, name)
    ensures Trim(name) == name && ToLower(name) == name
  {
    SourceLaws.LowerExact(name);
    assert forall i :: 0 <= i < |name| ==> ToLower(name)[i] == name[i];
  }

  // ----- The checks -----

  /** A request passes its checks exactly when each of them passes, and then carries what they found. */
  lemma {:induction false} PrecheckExactly(config: Config, source: Source, request: Request, checked: Checked)
    ensures Precheck(config, source, request) == Ok(checked) <==>
            && request.signature == Authentic
            && request.body == Some(checked.payload)
            && (source == Linear ==> Timestamps.VerifyWindow(checked.payload, request.now, config.linearWindowSeconds,
                                                              config.enforceLinearWindow))
            && EventType(source, request.headers, checked.payload) == Ok(checked.eventType)
            && DedupKey(source, request.headers, checked.payload) == Ok(checked.dedupKey)
            && CooldownKey(source, checked.payload) == checked.cooldownKey
  {}

  /** The first failing check gives the answer. */
  lemma {:induction false} FirstCheckAnswers(config: Config, source: Source, request: Request)
    ensures request.signature.NotAuthentic? ==> Precheck(config, source, request) == Err(request.signature.error)
    ensures request.signature.Authentic? && request.body.None? ==>
              Precheck(config, source, request) == Err(BadRequest("invalid json payload"))
    ensures request.signature.Authentic? && request.body.Some? && source == Linear
            && !Timestamps.VerifyWindow(request.body.value, request.now, config.linearWindowSeconds,
                                        config.enforceLinearWindow) ==>
              Precheck(config, source, request) == Err(Unauthorized)
  {}

  // ----- Topics -----

  /** The topic is the source's name, or ends in a dot and the name, up to case and blanks. */
  ghost predicate Serves(topic: string, name: string) {
    var plain := ToLower(Trim(topic));
    plain == name || (|plain| > |name| && plain[|plain| - |name| - 1..] == "." + name)
  }

  /** The source topic is the first configured one that serves the source, else the prefix and its name. */
  lemma {:induction false} SourceTopicExact(config: Config, source: Source, name: string)
    requires SourceLaws.Named(source, name)
    ensures var topic := SourceTopic(config, name);
            || (exists i :: 0 <= i < |config.sourceTopics| && topic == config.sourceTopics[i] && Serves(topic, name)
                            && forall j :: 0 <= j < i ==> !Serves(config.sourceTopics[j], name))
            || ((forall i :: 0 <= i < |config.sourceTopics| ==> !Serves(config.sourceTopics[i], name))
                && topic == config.sourceTopicPrefix + "." + name)
  {
    NameIsStable(source, name);
    FirstServing(config.sourceTopics, name);
  }

  lemma {:induction false} FirstServing(topics: seq<string>, name: string)
    ensures match TopicAmong(topics, name)
            case Some(topic) =>
              exists i :: 0 <= i < |topics| && topic == topics[i] && Serves(topic, name)
                          && forall j :: 0 <= j < i ==> !Serves(topics[j], name)
            case None => forall i :: 0 <= i < |topics| ==> !Serves(topics[i], name)
  {
    if topics != [] {
      assert TopicMatchesSource(topics[0], name) <==> Serves(topics[0], name);
      FirstServing(topics[1..], name);
      if TopicMatchesSource(topics[0], name) {
        assert topics[0] == TopicAmong(topics, name).value;
      } else {
        ServingShift(topics, name);
      }
    }
  }

  lemma {:induction false} ServingShift(topics: seq<string>, name: string)
    requires topics != [] && !Serves(topics[0], name)
    requires match TopicAmong(topics[1..], name)
             case Some(topic) =>
               exists i :: 0 <= i < |topics[1..]| && topic == topics[1..][i] && Serves(topic, name)
                           && forall j :: 0 <= j < i ==> !Serves(topics[1..][j], name)
             case None => forall i :: 0 <= i < |topics[1..]| ==> !Serves(topics[1..][i], name)
    ensures match TopicAmong(topics[1..], name)
            case Some(topic) =>
              exists i :: 0 <= i < |topics| && topic == topics[i] && Serves(topic, name)
                          && forall j :: 0 <= j < i ==> !Serves(topics[j], name)
            case None => forall i :: 0 <= i < |topics| ==> !Serves(topics[i], name)
  {
    var rest := topics[1..];
    match TopicAmong(rest, name) {
      case Some(topic) =>
        var i :| 0 <= i < |rest| && topic == rest[i] && Serves(topic, name)
                 && forall j :: 0 <= j < i ==> !Serves(rest[j], name);
        assert topics[i + 1] == topic;
        forall j | 0 <= j < i + 1
          ensures !Serves(topics[j], name)
        {
          if j > 0 {
            assert topics[j] == rest[j - 1];
          }
        }
      case None =>
        forall i | 0 <= i < |topics|
          ensures !Serves(topics[i], name)
        {
          if i > 0 {
            assert topics[i] == rest[i - 1];
          }
        }
    }
  }

  // ----- The job -----

  /** Metadata is there as soon as any of its parts is, and holds them all. */
  ghost predicate MetaHolds(meta: Option<EventMeta>, trace: Option<string>, adapter: Option<string>,
                            routeKey: Option<string>, flags: seq<string>)
  {
    if trace == None && adapter == None && routeKey == None && flags == [] then meta == None
    else
      && meta.Some? && meta.value.traceId == trace && meta.value.ingressAdapter == adapter
      && meta.value.routeKey == routeKey && meta.value.flags == flags
  }

  /** The route key of a job: none without routes, else the id of the first matching one, whose topic it goes to. */
  ghost predicate RoutedBy(routes: seq<Route>, name: string, job: Job, routeKey: Option<string>) {
    if routes == [] then routeKey == None
    else exists route :: IsFirstMatch(routes, name, job.envelope.eventType, route)
                         && routeKey == Some(route.id) && job.topic == route.targetTopic
  }

  /**
    A prepared job carries the request's id and time, the source's name, the sanitized
    payload, the event type and flags that the plugins leave, and metadata with the adapter,
    the route and, if there is either, the trace.
   */
  lemma {:induction false} PreparedEnvelope(
    config: Config, source: Source, request: Request, checked: Checked, job: Job, name: string)
    returns (sanitized: Value, eventType: string, flags: seq<string>, routeKey: Option<string>)
    requires Prepare(config, source, request, checked) == Ok(job) && SourceLaws.Named(source, name)
    ensures Sanitize.Sanitized(config.patterns, name, checked.payload) == Ok(sanitized)
    ensures ServeOutcome(config.plugins, checked.eventType, sanitized) == Ok((eventType, sanitized, flags))
    ensures job.envelope.id == request.eventId && job.envelope.receivedAt == request.receivedAt
    ensures job.envelope.source == name && job.envelope.payload == sanitized && job.envelope.eventType == eventType
    ensures RoutedBy(config.routes, name, job, routeKey)
    ensures var trace := if routeKey.Some? || config.adapterId.Some? then Some(request.traceId) else None;
            MetaHolds(job.envelope.meta, trace, config.adapterId, routeKey, flags)
  {
    sanitized := Sanitize.Sanitized(config.patterns, name, checked.payload).value;
    var shaped := Shape(config, source, checked).value;
    eventType, flags := shaped.0, shaped.2;
    var route := FirstMatch(config.routes, name, eventType);
    FirstMatchIsFirst(config.routes, name, eventType);
    routeKey := if route.Some? then Some(route.value.id) else None;
  }

  /** Preparation refuses exactly what is no object, what a plugin rejects, and what none of the routes takes. */
  lemma {:induction false} PreparationRefusesExactly(
    config: Config, source: Source, request: Request, checked: Checked, name: string)
    requires SourceLaws.Named(source, name)
    ensures Prepare(config, source, request, checked).Err? <==>
            || !checked.payload.Object?
            || (var sanitized := Sanitize.Sanitized(config.patterns, name, checked.payload);
                sanitized.Ok? &&
                var shaped := ServeOutcome(config.plugins, checked.eventType, sanitized.value);
                || shaped.Err?
                || (config.routes != []
                    && forall i :: 0 <= i < |config.routes| ==> !RouteMatches(config.routes[i], name, shaped.value.0)))
  {
    NameIsStable(source, name);
    var sanitized := Sanitize.Sanitized(config.patterns, name, checked.payload);
    if sanitized.Ok? {
      var shaped := ServeOutcome(config.plugins, checked.eventType, sanitized.value);
      if shaped.Ok? {
        FirstMatchIsFirst(config.routes, name, shaped.value.0);
      }
    }
  }

  // ----- Direct events -----

  /** A direct job carries the event's own id, time, trace and adapter, and what its sanitizer and plugins leave. */
  lemma {:induction false} DirectEnvelope(config: Config, event: DirectEvent, job: Job)
    returns (name: string, eventType: string, sanitized: Value, flags: seq<string>, routeKey: Option<string>)
    requires PrepareDirect(config, event) == Ok(job)
    ensures name == ToLower(Trim(event.source)) != "" && job.envelope.source == name
    ensures Sanitize.Sanitized(config.patterns, name, event.payload) == Ok(sanitized)
    ensures DirectEventType(event, name).Ok?
    ensures ServeOutcome(event.plugins, DirectEventType(event, name).value, sanitized) ==
            Ok((eventType, sanitized, flags))
    ensures job.envelope.id == event.eventId && job.envelope.receivedAt == event.receivedAt
    ensures job.envelope.eventType == eventType && job.envelope.payload == sanitized
    ensures MetaHolds(job.envelope.meta, Some(event.traceId), Some(event.adapterId), routeKey, flags)
    ensures || (routeKey == None && job.topic == SourceTopic(config, name)
                && forall i :: 0 <= i < |config.routes| ==> !RouteMatches(config.routes[i], name, eventType))
            || exists route :: IsFirstMatch(config.routes, name, eventType, route)
                               && routeKey == Some(route.id) && job.topic == route.targetTopic
  {
    name := NormalizeSourceName(event.source).value;
    var shape := ShapeDirect(config, event).value;
    sanitized := Sanitize.Sanitized(config.patterns, name, event.payload).value;
    eventType, flags := shape.1.0, shape.1.2;
    var route := FirstMatch(config.routes, name, eventType);
    FirstMatchIsFirst(config.routes, name, eventType);
    routeKey := if route.Some? then Some(route.value.id) else None;
  }

  /** The event type of a direct event: its override, trimmed; else its source's; for unknown sources "event". */
  lemma {:induction false} DirectTypes(event: DirectEvent, source: Source, name: string, normalized: string)
    requires SourceLaws.Named(source, name)
    ensures event.eventTypeOverride.Some? && Trim(event.eventTypeOverride.value) == "" ==>
              DirectEventType(event, normalized) == Err(EmptyEventType)
    ensures event.eventTypeOverride.Some? && Trim(event.eventTypeOverride.value) != "" ==>
              DirectEventType(event, normalized) == Ok(Trim(event.eventTypeOverride.value))
    ensures event.eventTypeOverride.None? && EventType(source, map[], event.payload).Ok? ==>
              DirectEventType(event, name) == Ok(EventType(source, map[], event.payload).value)
    ensures event.eventTypeOverride.None? && EventType(source, map[], event.payload).Err? ==>
              DirectEventType(event, name) == Err(NoEventType)
    ensures event.eventTypeOverride.None? && normalized !in ["github", "linear", "example"] ==>
              DirectEventType(event, normalized) == Ok("event")
  {}
}
