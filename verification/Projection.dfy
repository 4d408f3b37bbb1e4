/** From a validated contract to the adapters, routes, transports and topics of the smash runtime. */
module Projection {
  import opened Wrappers
  import opened Text
  import opened Plugins
  import opened Smash
  import opened Contract
  import opened ContractValidator
  import opened Arithmetic

  datatype AdapterEnv = AdapterEnv(id: string, target: Target, plugins: seq<Plugin>)

  datatype Target =
    | Openclaw(url: string, token: string, timeoutSeconds: nat, maxRetries: nat)
    | Mcp(toolName: string, transportRef: string)
    | WebsocketClient(url: string, authMode: string, tokenEnv: Option<string>, sendTimeoutMs: nat,
                      retryMaxRetries: nat, retryBackoffMs: nat)
    | WebsocketServer(bind: string, path: string, authMode: string, tokenEnv: Option<string>,
                      maxClients: nat, queueDepth: nat, sendTimeoutMs: nat)
    | KafkaTopic(topic: string, keyMode: string)

  datatype TransportEnv =
    | StdioEnv(name: string, command: string, args: seq<string>, environment: seq<Setting>)
    | HttpSseEnv(name: string, url: string, authMode: string, tokenEnv: Option<string>)

  datatype ProjectionError =
    | InvalidContract(issues: seq<Issue>)
    | BadAdapter(id: string)
    | EmptyPattern(routeId: string)
    | WildcardPattern(routeId: string)
    | MissingTransport(name: string)
    | BadTransport(name: string)

  datatype Active = Active(
    adapters: seq<AdapterEnv>,
    routes: seq<Route>,
    transports: seq<TransportEnv>,
    topics: seq<string>,
    allowNoOutput: bool,
    noOutputSink: Option<NoOutputSink>)

  // ----- Reading settings -----

  function RequiredString(settings: seq<Setting>, key: string): Option<string> { TrimmedText(Lookup(settings, key)) }

  function RequiredNat(settings: seq<Setting>, key: string, bound: nat): Option<nat> {
    match Lookup(settings, key)
    case Some(IntegerValue(n)) => if 0 <= n <= bound then Some(n) else None
    case _ => None
  }

  function PluginText(entries: seq<Setting>, key: string): Option<string> {
    match Lookup(entries, key)
    case Some(StringValue(text)) => Some(text)
    case _ => None
  }

  function ParsePlugin(value: Toml): Option<Plugin> {
    if !value.TableValue? then None
    else
      var from, to := PluginText(value.entries, "from"), PluginText(value.entries, "to");
      var pointer, flag := PluginText(value.entries, "pointer"), PluginText(value.entries, "flag");
      match PluginText(value.entries, "driver")
      case None => None
      case Some(driver) =>
        if driver == "event_type_alias" && from.Some? && to.Some? then Some(EventTypeAlias(from.value, to.value))
        else if driver == "require_payload_field" && pointer.Some? then Some(RequirePayloadField(pointer.value))
        else if driver == "add_meta_flag" && flag.Some? then Some(AddMetaFlag(flag.value))
        else None
  }

  function ParsePluginItems(items: seq<Toml>): Option<seq<Plugin>> {
    if items == [] then Some([])
    else
      var head, tail := ParsePlugin(items[0]), ParsePluginItems(items[1..]);
      if head.Some? && tail.Some? then Some([head.value] + tail.value) else None
  }

  function ParsePlugins(settings: seq<Setting>): Option<seq<Plugin>> {
    match Lookup(settings, "plugins")
    case None => Some([])
    case Some(ListValue(items)) => ParsePluginItems(items)
    case Some(_) => None
  }

  function PolicyNat(entries: seq<Setting>, key: string, bound: nat, default: nat): Option<nat> {
    if Lookup(entries, key).None? then Some(default) else RequiredNat(entries, key, bound)
  }

  function ParseRetryPolicy(settings: seq<Setting>): Option<(nat, nat)> {
    match Lookup(settings, "retry_policy")
    case None => Some((5, 500))
    case Some(TableValue(entries)) =>
      var retries := PolicyNat(entries, "max_retries", U32_MAX, 5);
      var backoff := PolicyNat(entries, "backoff_ms", I64_MAX, 500);
      if retries.Some? && backoff.Some? then Some((retries.value, backoff.value)) else None
    case Some(_) => None
  }

  // ----- Adapters -----

  function ToTarget(driver: EgressDriver, c: seq<Setting>): Option<Target> {
    match driver
    case OpenclawHttpOutput =>
      var url, token := RequiredString(c, "url"), RequiredString(c, "token_env");
      var timeout := RequiredNat(c, "timeout_seconds", I64_MAX);
      var retries := RequiredNat(c, "max_retries", U32_MAX);
      if url.None? || token.None? || timeout.None? || retries.None? then None
      else Some(Openclaw(url.value, token.value, timeout.value, retries.value))
    case McpToolOutput =>
      var tool, transport := RequiredString(c, "tool_name"), RequiredString(c, "transport_ref");
      if tool.None? || transport.None? then None else Some(Mcp(tool.value, transport.value))
    case WebsocketClientOutput =>
      var policy, url, auth := ParseRetryPolicy(c), RequiredString(c, "url"), RequiredString(c, "auth_mode");
      var timeout := RequiredNat(c, "send_timeout_ms", I64_MAX);
      if policy.None? || url.None? || auth.None? || timeout.None? then None
      else Some(WebsocketClient(url.value, auth.value, TrimmedText(Lookup(c, "token_env")),
                                timeout.value, policy.value.0, policy.value.1))
    case WebsocketServerOutput =>
      var bind, path, auth := RequiredString(c, "bind"), RequiredString(c, "path"), RequiredString(c, "auth_mode");
      var clients, depth := RequiredNat(c, "max_clients", I64_MAX), RequiredNat(c, "queue_depth_per_client", I64_MAX);
      var timeout := RequiredNat(c, "send_timeout_ms", I64_MAX);
      if bind.None? || path.None? || auth.None? || clients.None? || depth.None? || timeout.None? then None
      else Some(WebsocketServer(bind.value, path.value, auth.value, TrimmedText(Lookup(c, "token_env")),
                                clients.value, depth.value, timeout.value))
    case KafkaOutput =>
      var topic, keyMode := RequiredString(c, "topic"), RequiredString(c, "key_mode");
      if topic.None? || keyMode.None? then None else Some(KafkaTopic(topic.value, keyMode.value))
    case UnknownEgress(_) => None
  }

  function ToAdapterEnv(adapter: Egress): (env: Option<AdapterEnv>)
    ensures env.Some? ==> env.value.id == adapter.id
  {
    match ParsePlugins(adapter.config)
    case None => None
    case Some(plugins) =>
      match ToTarget(adapter.driver, adapter.config)
      case None => None
      case Some(target) => Some(AdapterEnv(adapter.id, target, plugins))
  }

  /** The profile's adapters in the contract's order, or the first that does not convert. */
  function ProjectAdapters(adapters: seq<Egress>, ids: seq<string>): Result<seq<AdapterEnv>, ProjectionError> {
    if adapters == [] then Ok([])
    else
      var n := |adapters| - 1;
      match ProjectAdapters(adapters[..n], ids)
      case Err(error) => Err(error)
      case Ok(before) =>
        if adapters[n].id !in ids then Ok(before)
        else
          match ToAdapterEnv(adapters[n])
          case None => Err(BadAdapter(adapters[n].id))
          case Some(env) => Ok(before + [env])
  }

  // ----- Routes and topics -----

  function ProjectRoute(route: Route): Result<Route, ProjectionError> {
    var pattern := Trim(route.sourceTopicPattern);
    if pattern == "" then Err(EmptyPattern(route.id))
    else if '*' in pattern then Err(WildcardPattern(route.id))
    else Ok(route.(sourceTopicPattern := pattern))
  }

  /** The profile's routes in the contract's order, or the first that does not convert. */
  function ProjectRoutes(routes: seq<Route>, ids: seq<string>): Result<seq<Route>, ProjectionError> {
    if routes == [] then Ok([])
    else
      var n := |routes| - 1;
      match ProjectRoutes(routes[..n], ids)
      case Err(error) => Err(error)
      case Ok(before) =>
        if routes[n].id !in ids then Ok(before)
        else
          match ProjectRoute(routes[n])
          case Err(error) => Err(error)
          case Ok(route) => Ok(before + [route])
  }

  /** The sorted set of the routes' patterns. */
  function TopicsOf(routes: seq<Route>): (topics: seq<string>)
    ensures forall t :: t in topics <==> exists i :: 0 <= i < |routes| && routes[i].sourceTopicPattern == t
  {
    if routes == [] then []
    else
      var n := |routes| - 1;
      InsertSorted(TopicsOf(routes[..n]), routes[n].sourceTopicPattern)
  }

  /** The source's loop: filter, check, collect the topics on the way. */
  method CollectRoutes(routes: seq<Route>, ids: seq<string>)
    returns (result: Result<seq<Route>, ProjectionError>, topics: seq<string>)
    ensures result == ProjectRoutes(routes, ids)
    ensures result.Ok? ==> topics == TopicsOf(result.value)
  {
    var collected := [];
    topics := [];
    for i := 0 to |routes|
      invariant topics == TopicsOf(collected)
      invariant ProjectRoutes(routes[..i], ids) == Ok(collected)
    {
      assert routes[..i + 1][..i] == routes[..i];
      if routes[i].id in ids {
        var route := ProjectRoute(routes[i]);
        if route.Err? {
          RoutesStop(routes, ids, i + 1);
          return Err(route.error), [];
        }
        topics := InsertSorted(topics, route.value.sourceTopicPattern);
        assert (collected + [route.value])[..|collected|] == collected;
        collected := collected + [route.value];
      }
    }
    assert routes[..|routes|] == routes;
    return Ok(collected), topics;
  }

  /** An error in a prefix is the error of the whole. */
  lemma {:induction false} RoutesStop(routes: seq<Route>, ids: seq<string>, i: nat)
    requires i <= |routes| && ProjectRoutes(routes[..i], ids).Err?
    ensures ProjectRoutes(routes, ids) == ProjectRoutes(routes[..i], ids)
    decreases |routes|
  {
    if i < |routes| {
      var n := |routes| - 1;
      assert routes[..n][..i] == routes[..i];
      RoutesStop(routes[..n], ids, i);
    } else {
      assert routes[..i] == routes;
    }
  }

  // ----- Transports -----

  function StringItems(items: seq<Toml>): seq<string> {
    if items == [] then []
    else
      var text := TrimmedText(Some(items[0]));
      (if text.Some? then [text.value] else []) + StringItems(items[1..])
  }

  function OptionalStrings(settings: seq<Setting>, key: string): seq<string> {
    match Lookup(settings, key)
    case Some(ListValue(items)) => StringItems(items)
    case _ => []
  }

  function OptionalTable(settings: seq<Setting>, key: string): Option<seq<Setting>> {
    match Lookup(settings, key)
    case None => Some([])
    case Some(TableValue(entries)) =>
      if forall i :: 0 <= i < |entries| ==> entries[i].value.StringValue? then Some(entries) else None
    case Some(_) => None
  }

  function ToTransportEnv(name: string, transport: Transport): (env: Option<TransportEnv>)
    ensures env.Some? ==> env.value.name == name
  {
    var c := transport.config;
    match transport.driver
    case StdioJsonrpc =>
      var command, environment := RequiredString(c, "command"), OptionalTable(c, "env");
      if command.None? || environment.None? then None
      else Some(StdioEnv(name, command.value, OptionalStrings(c, "args"), environment.value))
    case HttpSse =>
      var url, auth := RequiredString(c, "url"), RequiredString(c, "auth_mode");
      if url.None? || auth.None? then None
      else Some(HttpSseEnv(name, url.value, auth.value, TrimmedText(Lookup(c, "token_env"))))
    case UnknownTransport(_) => None
  }

  function ProjectTransports(transports: map<string, Transport>, adapters: seq<AdapterEnv>)
    : Result<seq<TransportEnv>, ProjectionError>
  {
    if adapters == [] then Ok([])
    else
      var n := |adapters| - 1;
      match ProjectTransports(transports, adapters[..n])
      case Err(error) => Err(error)
      case Ok(before) =>
        if !adapters[n].target.Mcp? then Ok(before)
        else
          var name := adapters[n].target.transportRef;
          if name !in transports then Err(MissingTransport(name))
          else
            match ToTransportEnv(name, transports[name])
            case None => Err(BadTransport(name))
            case Some(env) => Ok(before + [env])
  }

  /** The source's loop over the projected adapters. */
  method CollectTransports(transports: map<string, Transport>, adapters: seq<AdapterEnv>)
    returns (result: Result<seq<TransportEnv>, ProjectionError>)
    ensures result == ProjectTransports(transports, adapters)
  {
    var collected := [];
    for i := 0 to |adapters|
      invariant ProjectTransports(transports, adapters[..i]) == Ok(collected)
    {
      assert adapters[..i + 1][..i] == adapters[..i];
      if adapters[i].target.Mcp? {
        var name := adapters[i].target.transportRef;
        if name !in transports {
          TransportsStop(transports, adapters, i + 1);
          return Err(MissingTransport(name));
        }
        var env := ToTransportEnv(name, transports[name]);
        if env.None? {
          TransportsStop(transports, adapters, i + 1);
          return Err(BadTransport(name));
        }
        collected := collected + [env.value];
      }
    }
    assert adapters[..|adapters|] == adapters;
    return Ok(collected);
  }

  /** An error in a prefix is the error of the whole. */
  lemma {:induction false} TransportsStop(transports: map<string, Transport>, adapters: seq<AdapterEnv>, i: nat)
    requires i <= |adapters| && ProjectTransports(transports, adapters[..i]).Err?
    ensures ProjectTransports(transports, adapters) == ProjectTransports(transports, adapters[..i])
    decreases |adapters|
  {
    if i < |adapters| {
      var n := |adapters| - 1;
      assert adapters[..n][..i] == adapters[..i];
      TransportsStop(transports, adapters[..n], i);
    } else {
      assert adapters[..i] == adapters;
    }
  }

  // ----- The whole projection -----

  function WithMode(contract: AppContract, mode: Option<ValidationMode>): AppContract {
    if mode.Some? then contract.(policies := contract.policies.(validationMode := mode.value)) else contract
  }

  predicate AnyCritical(issues: seq<Issue>) { exists i :: 0 <= i < |issues| && issues[i].securityCritical }

  function ProjectProfile(contract: AppContract, profile: ValidatedProfile): Result<Active, ProjectionError> {
    match ProjectAdapters(contract.egressAdapters, profile.smashAdapters)
    case Err(error) => Err(error)
    case Ok(adapters) =>
      match ProjectRoutes(contract.smashRoutes, profile.smashRoutes)
      case Err(error) => Err(error)
      case Ok(routes) =>
        match ProjectTransports(contract.transports, adapters)
        case Err(error) => Err(error)
        case Ok(transports) =>
          Ok(Active(adapters, routes, transports, TopicsOf(routes),
                    contract.policies.allowNoOutput, contract.policies.noOutputSink))
  }

  /** With `force`, issues that are not critical are passed over and an empty runtime results. */
  function Project(contract: AppContract, profileName: string, mode: Option<ValidationMode>, force: bool)
    : Result<Active, ProjectionError>
  {
    match Validated(WithMode(contract, mode), profileName)
    case Err(issues) =>
      if AnyCritical(issues) || !force then Err(InvalidContract(issues))
      else Ok(Active([], [], [], [], contract.policies.allowNoOutput, contract.policies.noOutputSink))
    case Ok(profile) => ProjectProfile(contract, profile)
  }

  method ResolveActiveSmashContract(
    contract: AppContract, profileName: string, mode: Option<ValidationMode>, force: bool)
    returns (result: Result<Active, ProjectionError>)
    ensures result == Project(contract, profileName, mode, force)
  {
    var validation := ValidateContract(WithMode(contract, mode), profileName);
    if validation.Err? {
      if AnyCritical(validation.error) || !force {
        return Err(InvalidContract(validation.error));
      }
      return Ok(Active([], [], [], [], contract.policies.allowNoOutput, contract.policies.noOutputSink));
    }
    var adapters := ProjectAdapters(contract.egressAdapters, validation.value.smashAdapters);
    if adapters.Err? {
      return Err(adapters.error);
    }
    var routes, topics := CollectRoutes(contract.smashRoutes, validation.value.smashRoutes);
    if routes.Err? {
      return Err(routes.error);
    }
    var transports := CollectTransports(contract.transports, adapters.value);
    if transports.Err? {
      return Err(transports.error);
    }
    return Ok(Active(adapters.value, routes.value, transports.value, topics,
                     contract.policies.allowNoOutput, contract.policies.noOutputSink));
  }
}
