/** The smash runtime's own configuration check and the topics it subscribes to. */
module RuntimeConfig {
  import opened Wrappers
  import opened Text
  import opened Plugins
  import opened Smash
  import opened Projection

  datatype Runtime = Runtime(
    adapters: seq<AdapterEnv>,
    routes: seq<Route>,
    transports: seq<TransportEnv>,
    topics: seq<string>,
    allowNoOutput: bool,
    noOutputSink: Option<NoOutputSink>,
    messageMaxBytes: nat,
    dlqTopic: string)

  datatype RuntimeError =
    | MessageLimitTooSmall | EmptyDlqTopic
    | EmptyAdapterId | DuplicateAdapterId(id: string) | BadField(id: string, field: string)
    | UnknownTransportRef(id: string, name: string) | BadPlugin(id: string)
    | EmptyRouteId | DuplicateRouteId(id: string) | EmptyRoutePattern(id: string)
    | UnknownDestination(routeId: string, adapterId: string)
    | NoOutputs | NoOutputSinkMissing | LegacyWithoutOutputs
    | RoutesMissing | AdaptersMissing | LegacyUrlMissing | TopicsMissing | WildcardTopic(routeId: string)

  // ----- Field checks -----

  predicate PluginValid(plugin: Plugin) {
    match plugin
    case EventTypeAlias(from, to) => Trim(from) != "" && Trim(to) != ""
    case RequirePayloadField(pointer) => Trim(pointer) != "" && pointer[0] == '/'
    case AddMetaFlag(flag) => Trim(flag) != ""
  }

  predicate PluginsValid(plugins: seq<Plugin>) {
    forall i :: 0 <= i < |plugins| ==> PluginValid(plugins[i])
  }

  predicate Blank(s: string) { Trim(s) == "" }

  predicate TokenMissing(authMode: string, tokenEnv: Option<string>) {
    Trim(authMode) != "none" && (tokenEnv.None? || Blank(tokenEnv.value))
  }

  /** The first field of an adapter's target that is unusable, in the source's order. */
  function TargetError(id: string, target: Target, transports: seq<TransportEnv>): Option<RuntimeError> {
    match target
    case Openclaw(url, token, timeout, _) =>
      if Blank(url) then Some(BadField(id, "url"))
      else if Blank(token) then Some(BadField(id, "token_env"))
      else if timeout == 0 then Some(BadField(id, "timeout_seconds"))
      else None
    case Mcp(tool, transport) =>
      if Blank(tool) then Some(BadField(id, "tool_name"))
      else if Blank(transport) then Some(BadField(id, "transport_ref"))
      else if forall i :: 0 <= i < |transports| ==> transports[i].name != transport
      then Some(UnknownTransportRef(id, transport))
      else None
    case WebsocketClient(url, auth, token, timeout, _, _) =>
      if Blank(url) then Some(BadField(id, "url"))
      else if Blank(auth) then Some(BadField(id, "auth_mode"))
      else if timeout == 0 then Some(BadField(id, "send_timeout_ms"))
      else if Trim(auth) !in ["none", "bearer", "hmac"] then Some(BadField(id, "auth_mode"))
      else if TokenMissing(auth, token) then Some(BadField(id, "token_env"))
      else None
    case WebsocketServer(bind, path, auth, token, clients, depth, timeout) =>
      if Blank(bind) then Some(BadField(id, "bind"))
      else if Blank(path) then Some(BadField(id, "path"))
      else if Blank(auth) then Some(BadField(id, "auth_mode"))
      else if clients == 0 then Some(BadField(id, "max_clients"))
      else if depth == 0 then Some(BadField(id, "queue_depth_per_client"))
      else if timeout == 0 then Some(BadField(id, "send_timeout_ms"))
      else if TokenMissing(auth, token) then Some(BadField(id, "token_env"))
      else None
    case KafkaTopic(topic, keyMode) =>
      if Blank(topic) then Some(BadField(id, "topic"))
      else if Trim(keyMode) !in ["event_id", "source", "none"] then Some(BadField(id, "key_mode"))
      else None
  }

  /** The first complaint about one adapter: its target's fields, then its plugins. */
  function FieldError(a: AdapterEnv, transports: seq<TransportEnv>): Option<RuntimeError> {
    var error := TargetError(a.id, a.target, transports);
    if error.Some? then error else if PluginsValid(a.plugins) then None else Some(BadPlugin(a.id))
  }

  /** The first complaint of the adapter loop, whatever the check of one adapter's fields. */
  function FirstAdapterError(adapters: seq<AdapterEnv>, seen: set<string>, check: AdapterEnv -> Option<RuntimeError>)
    : Option<RuntimeError>
  {
    if adapters == [] then None
    else if Blank(adapters[0].id) then Some(EmptyAdapterId)
    else if adapters[0].id in seen then Some(DuplicateAdapterId(adapters[0].id))
    else
      var error := check(adapters[0]);
      if error.Some? then error else FirstAdapterError(adapters[1..], seen + {adapters[0].id}, check)
  }

  function AdaptersError(adapters: seq<AdapterEnv>, transports: seq<TransportEnv>): Option<RuntimeError> {
    FirstAdapterError(adapters, {}, a => FieldError(a, transports))
  }

  function DestinationError(routeId: string, ds: seq<Destination>, known: set<string>): Option<RuntimeError> {
    if ds == [] then None
    else if ds[0].adapterId !in known then Some(UnknownDestination(routeId, ds[0].adapterId))
    else DestinationError(routeId, ds[1..], known)
  }

  function RouteError(route: Route, seen: set<string>, known: set<string>): Option<RuntimeError> {
    if Blank(route.id) then Some(EmptyRouteId)
    else if route.id in seen then Some(DuplicateRouteId(route.id))
    else if Blank(route.sourceTopicPattern) then Some(EmptyRoutePattern(route.id))
    else DestinationError(route.id, route.destinations, known)
  }

  function RoutesError(routes: seq<Route>, seen: set<string>, known: set<string>): Option<RuntimeError> {
    if routes == [] then None
    else
      var error := RouteError(routes[0], seen, known);
      if error.Some? then error else RoutesError(routes[1..], seen + {routes[0].id}, known)
  }

  function AdapterIds(adapters: seq<AdapterEnv>): set<string> { set a | a in adapters :: a.id }

  predicate HasDestinations(routes: seq<Route>) {
    exists i :: 0 <= i < |routes| && routes[i].destinations != []
  }

  function OutputError(runtime: Runtime, legacy: bool): Option<RuntimeError> {
    if HasDestinations(runtime.routes) then None
    else if !runtime.allowNoOutput then Some(NoOutputs)
    else if runtime.noOutputSink.None? then Some(NoOutputSinkMissing)
    else if legacy then Some(LegacyWithoutOutputs)
    else None
  }

  /** The first error of `Config::validate`, in its order. */
  function RuntimeErrorOf(runtime: Runtime, legacy: bool): Option<RuntimeError> {
    if runtime.messageMaxBytes < 128 then Some(MessageLimitTooSmall)
    else if Blank(runtime.dlqTopic) then Some(EmptyDlqTopic)
    else
      var adapters := AdaptersError(runtime.adapters, runtime.transports);
      if adapters.Some? then adapters
      else
        var routes := RoutesError(runtime.routes, {}, AdapterIds(runtime.adapters));
        if routes.Some? then routes else OutputError(runtime, legacy)
  }

  // ----- The source's loops -----

  method CheckAdapters(adapters: seq<AdapterEnv>, transports: seq<TransportEnv>)
    returns (error: Option<RuntimeError>, ids: set<string>)
    ensures error == AdaptersError(adapters, transports)
    ensures error.None? ==> ids == AdapterIds(adapters)
  {
    ghost var check := a => FieldError(a, transports);
    ids := {};
    for i := 0 to |adapters|
      invariant ids == AdapterIds(adapters[..i])
      invariant AdaptersError(adapters, transports) == FirstAdapterError(adapters[i..], ids, check)
    {
      assert adapters[i..][1..] == adapters[i + 1..];
      if Blank(adapters[i].id) {
        return Some(EmptyAdapterId), ids;
      }
      if adapters[i].id in ids {
        return Some(DuplicateAdapterId(adapters[i].id)), ids;
      }
      error := FieldError(adapters[i], transports);
      if error.Some? {
        return;
      }
      ids := ids + {adapters[i].id};
      assert adapters[..i + 1] == adapters[..i] + [adapters[i]];
    }
    assert adapters[..|adapters|] == adapters;
    error := None;
  }

  method CheckRoutes(routes: seq<Route>, known: set<string>)
    returns (error: Option<RuntimeError>, destinations: nat)
    ensures error == RoutesError(routes, {}, known)
    ensures error.None? ==> (destinations > 0 <==> HasDestinations(routes))
  {
    var seen := {};
    destinations := 0;
    for i := 0 to |routes|
      invariant RoutesError(routes, {}, known) == RoutesError(routes[i..], seen, known)
      invariant destinations > 0 <==> HasDestinations(routes[..i])
    {
      assert routes[i..][1..] == routes[i + 1..];
      error := RouteError(routes[i], seen, known);
      if error.Some? {
        return;
      }
      seen := seen + {routes[i].id};
      CountDestinations(routes, i);
      destinations := destinations + |routes[i].destinations|;
    }
    assert routes[..|routes|] == routes;
    error := None;
  }

  lemma {:induction false} CountDestinations(routes: seq<Route>, i: nat)
    requires i < |routes|
    ensures HasDestinations(routes[..i + 1]) <==> HasDestinations(routes[..i]) || routes[i].destinations != []
  {
    assert routes[..i + 1] == routes[..i] + [routes[i]];
    if HasDestinations(routes[..i]) {
      var j :| 0 <= j < i && routes[..i][j].destinations != [];
      assert routes[..i + 1][j].destinations != [];
    }
    if routes[i].destinations != [] {
      assert routes[..i + 1][i].destinations != [];
    }
  }

  method Validate(runtime: Runtime, legacy: bool) returns (error: Option<RuntimeError>)
    ensures error == RuntimeErrorOf(runtime, legacy)
  {
    if runtime.messageMaxBytes < 128 {
      return Some(MessageLimitTooSmall);
    }
    if Blank(runtime.dlqTopic) {
      return Some(EmptyDlqTopic);
    }
    var ids, destinations;
    error, ids := CheckAdapters(runtime.adapters, runtime.transports);
    if error.Some? {
      return;
    }
    error, destinations := CheckRoutes(runtime.routes, ids);
    if error.Some? {
      return;
    }
    if destinations == 0 {
      if !runtime.allowNoOutput {
        return Some(NoOutputs);
      }
      if runtime.noOutputSink.None? {
        return Some(NoOutputSinkMissing);
      }
      if legacy {
        return Some(LegacyWithoutOutputs);
      }
    }
    return None;
  }

  // ----- Topics -----

  /** The topics handed over as one comma-separated string. */
  function ParseCsvTopics(raw: string): seq<string> { NonEmpty(TrimAll(Split(raw, ','))) }

  function TrimAll(parts: seq<string>): seq<string> {
    if parts == [] then [] else [Trim(parts[0])] + TrimAll(parts[1..])
  }

  /** The runtime's own fallback: the sorted set of the routes' literal patterns. */
  function DeriveTopics(routes: seq<Route>): Result<seq<string>, RuntimeError> {
    if routes == [] then Ok([])
    else
      var n := |routes| - 1;
      match DeriveTopics(routes[..n])
      case Err(error) => Err(error)
      case Ok(topics) =>
        var pattern := Trim(routes[n].sourceTopicPattern);
        if pattern == "" then Ok(topics)
        else if '*' in pattern then Err(WildcardTopic(routes[n].id))
        else Ok(InsertSorted(topics, pattern))
  }

  method DeriveTopicsFromRoutes(routes: seq<Route>) returns (result: Result<seq<string>, RuntimeError>)
    ensures result == DeriveTopics(routes)
  {
    var topics := [];
    for i := 0 to |routes|
      invariant DeriveTopics(routes[..i]) == Ok(topics)
    {
      assert routes[..i + 1][..i] == routes[..i];
      var pattern := Trim(routes[i].sourceTopicPattern);
      if pattern == "" {
        continue;
      }
      if '*' in pattern {
        DerivationStops(routes, i + 1);
        return Err(WildcardTopic(routes[i].id));
      }
      topics := InsertSorted(topics, pattern);
    }
    assert routes[..|routes|] == routes;
    return Ok(topics);
  }

  lemma {:induction false} DerivationStops(routes: seq<Route>, i: nat)
    requires i <= |routes| && DeriveTopics(routes[..i]).Err?
    ensures DeriveTopics(routes) == DeriveTopics(routes[..i])
    decreases |routes|
  {
    if i < |routes| {
      var n := |routes| - 1;
      assert routes[..n][..i] == routes[..i];
      DerivationStops(routes[..n], i);
    } else {
      assert routes[..i] == routes;
    }
  }

  // ----- From the projection to a running consumer -----

  /** What the contract does not fix: the `--topics` flag and the ambient variables. */
  datatype Environment = Environment(
    topicsFlag: Option<string>,
    topicsVariable: Option<string>,
    legacyUrl: Option<string>,
    legacyTimeoutSeconds: nat,
    legacyMaxRetries: nat,
    messageMaxBytes: nat,
    dlqTopic: string)

  /** The contract's values reach the runtime only if it has adapters or allows no output. */
  function Handed(active: Active): Active {
    if active.adapters != [] || active.allowNoOutput then active else Active([], [], [], [], false, None)
  }

  /** The topics variable the runtime sees: the flag beats the contract, which beats the environment. */
  function TopicsVariable(handed: Active, environment: Environment): Option<string> {
    if environment.topicsFlag.Some? then environment.topicsFlag
    else if handed.topics != [] then Some(Join(handed.topics, ','))
    else environment.topicsVariable
  }

  function TopicsGiven(variable: Option<string>): seq<string> {
    if variable.None? then [] else ParseCsvTopics(variable.value)
  }

  function Dashed(topic: string): string {
    if topic == "" then ""
    else [if topic[0] == '.' then '-' else topic[0]] + Dashed(topic[1..])
  }

  const LEGACY_ADAPTER := "openclaw-output"

  function LegacyRoute(topic: string): Route {
    Route("legacy-" + Dashed(topic), topic, [], [Destination(LEGACY_ADAPTER, true)])
  }

  function LegacyRoutes(topics: seq<string>): (routes: seq<Route>)
    ensures |routes| == |topics|
    ensures forall i :: 0 <= i < |routes| ==> routes[i] == LegacyRoute(topics[i])
  {
    seq(|topics|, i requires 0 <= i < |topics| => LegacyRoute(topics[i]))
  }

  function WithTopics(handed: Active, given: seq<string>, environment: Environment, legacy: bool)
    : Result<Runtime, RuntimeError>
  {
    match if given == [] then DeriveTopics(handed.routes) else Ok(given)
    case Err(error) => Err(error)
    case Ok(topics) =>
      if topics == [] then Err(TopicsMissing)
      else
        var runtime := Runtime(handed.adapters, handed.routes, handed.transports, topics,
                               handed.allowNoOutput, handed.noOutputSink,
                               environment.messageMaxBytes, environment.dlqTopic);
        match RuntimeErrorOf(runtime, legacy)
        case Some(error) => Err(error)
        case None => Ok(runtime)
  }

  function LegacyTopics(given: seq<string>): seq<string> {
    if given == [] then ["webhooks.github", "webhooks.linear"] else given
  }

  /** Without any adapters or routes the runtime falls back to one OpenClaw adapter. */
  function Fallback(handed: Active, given: seq<string>, environment: Environment): Active
    requires environment.legacyUrl.Some?
  {
    var target := Openclaw(environment.legacyUrl.value, "OPENCLAW_WEBHOOK_TOKEN",
                           environment.legacyTimeoutSeconds, environment.legacyMaxRetries);
    handed.(adapters := [AdapterEnv(LEGACY_ADAPTER, target, [])],
            routes := LegacyRoutes(LegacyTopics(given)),
            transports := [])
  }

  function StartLegacy(handed: Active, given: seq<string>, environment: Environment): Result<Runtime, RuntimeError> {
    if environment.legacyUrl.None? || Blank(environment.legacyUrl.value) then Err(LegacyUrlMissing)
    else WithTopics(Fallback(handed, given, environment), given, environment, true)
  }

  /** What the runtime builds from the projected values and its environment. */
  function Start(active: Active, environment: Environment): Result<Runtime, RuntimeError> {
    var handed := Handed(active);
    var given := TopicsGiven(TopicsVariable(handed, environment));
    if handed.routes == [] && handed.adapters == [] then StartLegacy(handed, given, environment)
    else if handed.routes == [] then Err(RoutesMissing)
    else if handed.adapters == [] then Err(AdaptersMissing)
    else WithTopics(handed, given, environment, false)
  }

  function PluginsById(adapters: seq<AdapterEnv>): map<string, seq<Plugin>> {
    if adapters == [] then map[]
    else
      var last := adapters[|adapters| - 1];
      PluginsById(adapters[..|adapters| - 1])[last.id := last.plugins]
  }

  /** The consumer's view of the runtime configuration. */
  function ConsumerConfig(runtime: Runtime): Config {
    Config(runtime.routes, AdapterIds(runtime.adapters), PluginsById(runtime.adapters),
           runtime.allowNoOutput, runtime.noOutputSink)
  }
}
