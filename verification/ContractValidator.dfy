/**
  `validate_contract`: the ordered list of issues of one profile. Each validator of the
  source appends to a shared list; here each is a loop proved to append exactly the list
  its specification function gives.
 */
module ContractValidator {
  import opened Wrappers
  import opened Text
  import opened Smash
  import opened Contract

  datatype Code =
    | MissingProfile | MissingServeAdapter | MissingSmashAdapter | MissingServeRoute | MissingSmashRoute
    | UnsupportedIngressDriver | UnsupportedEgressDriver | UnsupportedTransportDriver
    | UnknownAdapterKey | EmptyRequiredValue | MissingRequiredKey | MissingTransportRef
    | EmptyRouteDestinations | InactiveDestinationAdapter | MissingDestinationAdapter
    | NoSmashOutputs | MissingNoOutputSink | DlqWithoutRoutes | EmptyProfileLabel

  /** One validation error; `details` are the values its message names. */
  datatype Issue = Issue(code: Code, details: seq<string>, securityCritical: bool)

  function Critical(code: Code, details: seq<string>): Issue { Issue(code, details, true) }

  datatype ValidatedProfile = ValidatedProfile(
    profileName: string, mode: ValidationMode, serveAdapters: seq<string>, smashAdapters: seq<string>,
    serveRoutes: seq<string>, smashRoutes: seq<string>, skipped: seq<string>)

  // ----- Indices -----

  /** Adapters by id; a later adapter with the same id replaces an earlier one. */
  function IndexEgress(adapters: seq<Egress>): map<string, Egress> {
    if adapters == [] then map[]
    else
      var last := adapters[|adapters| - 1];
      IndexEgress(adapters[..|adapters| - 1])[last.id := last]
  }

  function IndexIngress(adapters: seq<Ingress>): map<string, Ingress> {
    if adapters == [] then map[]
    else
      var last := adapters[|adapters| - 1];
      IndexIngress(adapters[..|adapters| - 1])[last.id := last]
  }

  function RouteIds(routes: seq<Route>): (ids: seq<string>)
    ensures |ids| == |routes| && forall i :: 0 <= i < |ids| ==> ids[i] == routes[i].id
  {
    seq(|routes|, i requires 0 <= i < |routes| => routes[i].id)
  }

  /** The profile's adapters, in the profile's order. */
  function ActiveIngress(ids: seq<string>, byId: map<string, Ingress>): seq<Ingress> {
    if ids == [] then []
    else (if ids[0] in byId then [byId[ids[0]]] else []) + ActiveIngress(ids[1..], byId)
  }

  function ActiveEgress(ids: seq<string>, byId: map<string, Egress>): seq<Egress> {
    if ids == [] then []
    else (if ids[0] in byId then [byId[ids[0]]] else []) + ActiveEgress(ids[1..], byId)
  }

  /** The contract's routes named by the profile, in the contract's order. */
  function ActiveRoutes(routes: seq<Route>, ids: seq<string>): seq<Route> {
    if routes == [] then []
    else (if routes[0].id in ids then [routes[0]] else []) + ActiveRoutes(routes[1..], ids)
  }

  function TransportRef(adapter: Egress): Option<string> {
    if adapter.driver.McpToolOutput? then TrimmedText(Lookup(adapter.config, "transport_ref")) else None
  }

  /** The transports that active adapters refer to, sorted. */
  function TransportRefs(adapters: seq<Egress>): seq<string> {
    if adapters == [] then []
    else
      var n := |adapters| - 1;
      match TransportRef(adapters[n])
      case Some(name) => InsertSorted(TransportRefs(adapters[..n]), name)
      case None => TransportRefs(adapters[..n])
  }

  // ----- The issues of each part -----

  function UnresolvedIds(ids: seq<string>, known: set<string>, code: Code): seq<Issue> {
    if ids == [] then []
    else (if ids[0] in known then [] else [Critical(code, [ids[0]])]) + UnresolvedIds(ids[1..], known, code)
  }

  function UnknownKeyIssues(kind: string, id: string, driver: string, settings: seq<Setting>, allowed: seq<string>)
    : seq<Issue>
  {
    if settings == [] then []
    else
      (if settings[0].key in allowed then [] else [Critical(UnknownAdapterKey, [kind, id, driver, settings[0].key])])
      + UnknownKeyIssues(kind, id, driver, settings[1..], allowed)
  }

  function RequiredKeyIssues(kind: string, id: string, driver: string, settings: seq<Setting>, required: seq<string>)
    : seq<Issue>
  {
    if required == [] then []
    else
      (match Lookup(settings, required[0])
       case Some(value) =>
         if IsNonEmpty(value) then [] else [Critical(EmptyRequiredValue, [kind, id, driver, required[0]])]
       case None => [Critical(MissingRequiredKey, [kind, id, driver, required[0]])])
      + RequiredKeyIssues(kind, id, driver, settings, required[1..])
  }

  function SchemaIssues(kind: string, id: string, driver: string, settings: seq<Setting>,
                        required: seq<string>, optional: seq<string>): seq<Issue>
  {
    UnknownKeyIssues(kind, id, driver, settings, required + optional)
    + RequiredKeyIssues(kind, id, driver, settings, required)
  }

  function IngressName(driver: IngressDriver): string {
    match driver
    case HttpWebhookIngress => "http_webhook_ingress"
    case WebsocketIngress => "websocket_ingress"
    case McpIngestExposed => "mcp_ingest_exposed"
    case KafkaIngress => "kafka_ingress"
    case UnknownIngress(name) => name
  }

  function IngressRequired(driver: IngressDriver): seq<string> {
    match driver
    case HttpWebhookIngress => ["bind"]
    case WebsocketIngress => ["auth_mode"]
    case McpIngestExposed => ["transport_driver", "bind", "auth_mode", "max_payload_bytes"]
    case KafkaIngress => ["topics", "group_id"]
    case UnknownIngress(_) => []
  }

  function IngressOptional(driver: IngressDriver): seq<string> {
    match driver
    case HttpWebhookIngress => ["path_template", "plugins"]
    case WebsocketIngress => ["path_template", "plugins"]
    case McpIngestExposed => ["tool_name", "path", "token_env", "plugins"]
    case KafkaIngress => ["brokers", "plugins"]
    case UnknownIngress(_) => []
  }

  function IngressIssues(adapter: Ingress): seq<Issue> {
    if adapter.driver.UnknownIngress? then [Critical(UnsupportedIngressDriver, [adapter.id, adapter.driver.name])]
    else
      SchemaIssues("serve", adapter.id, IngressName(adapter.driver), adapter.config,
                   IngressRequired(adapter.driver), IngressOptional(adapter.driver))
  }

  function EgressName(driver: EgressDriver): string {
    match driver
    case OpenclawHttpOutput => "openclaw_http_output"
    case McpToolOutput => "mcp_tool_output"
    case WebsocketClientOutput => "websocket_client_output"
    case WebsocketServerOutput => "websocket_server_output"
    case KafkaOutput => "kafka_output"
    case UnknownEgress(name) => name
  }

  function EgressRequired(driver: EgressDriver): seq<string> {
    match driver
    case OpenclawHttpOutput => ["url", "token_env", "timeout_seconds", "max_retries"]
    case McpToolOutput => ["tool_name", "transport_ref"]
    case WebsocketClientOutput => ["url", "auth_mode", "send_timeout_ms", "retry_policy"]
    case WebsocketServerOutput =>
      ["bind", "path", "auth_mode", "max_clients", "queue_depth_per_client", "send_timeout_ms"]
    case KafkaOutput => ["topic", "key_mode"]
    case UnknownEgress(_) => []
  }

  function TransportRefIssues(transports: map<string, Transport>, adapter: Egress): seq<Issue> {
    match TrimmedText(Lookup(adapter.config, "transport_ref"))
    case Some(name) => if name in transports then [] else [Critical(MissingTransportRef, [adapter.id, name])]
    case None => [Critical(MissingTransportRef, [adapter.id])]
  }

  function EgressIssues(transports: map<string, Transport>, adapter: Egress): seq<Issue> {
    if adapter.driver.UnknownEgress? then [Critical(UnsupportedEgressDriver, [adapter.id, adapter.driver.name])]
    else
      SchemaIssues("smash", adapter.id, EgressName(adapter.driver), adapter.config,
                   EgressRequired(adapter.driver), ["plugins"])
      + if adapter.driver.McpToolOutput? then TransportRefIssues(transports, adapter) else []
  }

  function TransportIssues(transports: map<string, Transport>, name: string): seq<Issue> {
    if name !in transports then []
    else
      var transport := transports[name];
      match transport.driver
      case StdioJsonrpc =>
        SchemaIssues("transport", name, "stdio_jsonrpc", transport.config, [], ["command", "args", "env"])
      case HttpSse => SchemaIssues("transport", name, "http_sse", transport.config, ["url", "auth_mode"], [])
      case UnknownTransport(driver) => [Critical(UnsupportedTransportDriver, [name, driver])]
  }

  function AllIngressIssues(adapters: seq<Ingress>): seq<Issue> {
    if adapters == [] then [] else IngressIssues(adapters[0]) + AllIngressIssues(adapters[1..])
  }

  function AllEgressIssues(transports: map<string, Transport>, adapters: seq<Egress>): seq<Issue> {
    if adapters == [] then [] else EgressIssues(transports, adapters[0]) + AllEgressIssues(transports, adapters[1..])
  }

  function AllTransportIssues(transports: map<string, Transport>, names: seq<string>): seq<Issue> {
    if names == [] then [] else TransportIssues(transports, names[0]) + AllTransportIssues(transports, names[1..])
  }

  function DestinationIssue(routeId: string, d: Destination, active: seq<string>, known: set<string>): seq<Issue> {
    if d.adapterId !in active then [Critical(InactiveDestinationAdapter, [routeId, d.adapterId])]
    else if d.adapterId !in known then [Critical(MissingDestinationAdapter, [routeId, d.adapterId])]
    else []
  }

  function DestinationIssues(routeId: string, ds: seq<Destination>, active: seq<string>, known: set<string>)
    : seq<Issue>
  {
    if ds == [] then []
    else DestinationIssue(routeId, ds[0], active, known) + DestinationIssues(routeId, ds[1..], active, known)
  }

  function RouteIssues(route: Route, active: seq<string>, known: set<string>): seq<Issue> {
    if route.destinations == [] then [Critical(EmptyRouteDestinations, [route.id])]
    else DestinationIssues(route.id, route.destinations, active, known)
  }

  function AllRouteIssues(routes: seq<Route>, active: seq<string>, known: set<string>): seq<Issue> {
    if routes == [] then [] else RouteIssues(routes[0], active, known) + AllRouteIssues(routes[1..], active, known)
  }

  /** Some active route has a destination whose adapter is active. */
  predicate HasActiveDestination(routes: seq<Route>, active: seq<string>) {
    exists i, j :: 0 <= i < |routes| && 0 <= j < |routes[i].destinations|
                   && routes[i].destinations[j].adapterId in active
  }

  function NoOutputIssues(policies: Policies, profile: Profile, routes: seq<Route>): seq<Issue> {
    if HasActiveDestination(routes, profile.smashAdapters) then []
    else if !policies.allowNoOutput then [Critical(NoSmashOutputs, [])]
    else
      (if policies.noOutputSink.None? then [Critical(MissingNoOutputSink, [])] else [])
      + (if policies.noOutputSink == Some(Dlq) && profile.smashRoutes == [] then [Critical(DlqWithoutRoutes, [])]
         else [])
  }

  function LabelIssues(mode: ValidationMode, profile: Profile): seq<Issue> {
    if mode.Strict? && Trim(profile.labelText) == "" then [Issue(EmptyProfileLabel, [], false)] else []
  }

  function ToSet(ids: seq<string>): set<string> { set id | id in ids }

  /** The profile's references that lead nowhere. */
  function ReferenceIssues(contract: AppContract, profile: Profile): seq<Issue> {
    UnresolvedIds(profile.serveAdapters, IndexIngress(contract.ingressAdapters).Keys, MissingServeAdapter)
    + UnresolvedIds(profile.smashAdapters, IndexEgress(contract.egressAdapters).Keys, MissingSmashAdapter)
    + UnresolvedIds(profile.serveRoutes, ToSet(contract.serveRouteIds), MissingServeRoute)
    + UnresolvedIds(profile.smashRoutes, ToSet(RouteIds(contract.smashRoutes)), MissingSmashRoute)
  }

  /** The issues of the active adapters and transports. */
  function AdapterIssues(contract: AppContract, profile: Profile): seq<Issue> {
    var activeEgress := ActiveEgress(profile.smashAdapters, IndexEgress(contract.egressAdapters));
    AllIngressIssues(ActiveIngress(profile.serveAdapters, IndexIngress(contract.ingressAdapters)))
    + AllEgressIssues(contract.transports, activeEgress)
    + AllTransportIssues(contract.transports, TransportRefs(activeEgress))
  }

  /** The issues of the active routes and of the no-output policy. */
  function OutputIssues(contract: AppContract, profile: Profile): seq<Issue> {
    var routes := ActiveRoutes(contract.smashRoutes, profile.smashRoutes);
    AllRouteIssues(routes, profile.smashAdapters, IndexEgress(contract.egressAdapters).Keys)
    + NoOutputIssues(contract.policies, profile, routes)
  }

  function StructuralIssues(contract: AppContract, profile: Profile): seq<Issue> {
    ReferenceIssues(contract, profile) + AdapterIssues(contract, profile) + OutputIssues(contract, profile)
  }

  /** All issues of a profile, in the order the source reports them. */
  function ProfileIssues(contract: AppContract, profile: Profile): seq<Issue> {
    StructuralIssues(contract, profile) + LabelIssues(contract.policies.validationMode, profile)
  }

  function Issues(contract: AppContract, profileName: string): seq<Issue> {
    if profileName !in contract.profiles then [Critical(MissingProfile, [profileName])]
    else ProfileIssues(contract, contract.profiles[profileName])
  }

  function Skipped(mode: ValidationMode): seq<string> {
    if mode.Debug? then ["non_security_profile_label_check", "non_security_profile_env_table_check"] else []
  }

  function Validated(contract: AppContract, profileName: string): Result<ValidatedProfile, seq<Issue>> {
    if Issues(contract, profileName) != [] || profileName !in contract.profiles then Err(Issues(contract, profileName))
    else
      var profile, mode := contract.profiles[profileName], contract.policies.validationMode;
      Ok(ValidatedProfile(profileName, mode, profile.serveAdapters, profile.smashAdapters,
                          profile.serveRoutes, profile.smashRoutes, Skipped(mode)))
  }

  // ----- The source's validators -----

  lemma {:induction false} Regroup<T>(a: seq<T>, b: seq<T>, c: seq<T>)
    ensures (a + b) + c == a + (b + c)
  {}

  lemma {:induction false} RegroupThree<T>(a: seq<T>, b: seq<T>, c: seq<T>, d: seq<T>)
    ensures a + b + c + d == a + (b + c + d)
  {}

  lemma {:induction false} RegroupFour<T>(a: seq<T>, b: seq<T>, c: seq<T>, d: seq<T>, e: seq<T>)
    ensures a + b + c + d + e == a + (b + c + d + e)
  {}

  method IndexEgressAdapters(adapters: seq<Egress>) returns (byId: map<string, Egress>)
    ensures byId == IndexEgress(adapters)
  {
    byId := map[];
    for i := 0 to |adapters|
      invariant byId == IndexEgress(adapters[..i])
    {
      assert adapters[..i + 1][..i] == adapters[..i];
      byId := byId[adapters[i].id := adapters[i]];
    }
    assert adapters[..|adapters|] == adapters;
  }

  method IndexIngressAdapters(adapters: seq<Ingress>) returns (byId: map<string, Ingress>)
    ensures byId == IndexIngress(adapters)
  {
    byId := map[];
    for i := 0 to |adapters|
      invariant byId == IndexIngress(adapters[..i])
    {
      assert adapters[..i + 1][..i] == adapters[..i];
      byId := byId[adapters[i].id := adapters[i]];
    }
    assert adapters[..|adapters|] == adapters;
  }

  method CheckRefs(ids: seq<string>, known: set<string>, code: Code, errors: seq<Issue>) returns (out: seq<Issue>)
    ensures out == errors + UnresolvedIds(ids, known, code)
  {
    out := errors;
    ghost var all := errors + UnresolvedIds(ids, known, code);
    for i := 0 to |ids|
      invariant all == out + UnresolvedIds(ids[i..], known, code)
    {
      UnresolvedStep(ids, known, code, i, out);
      if ids[i] !in known {
        out := out + [Critical(code, [ids[i]])];
      }
    }
  }

  lemma {:induction false} UnresolvedStep(ids: seq<string>, known: set<string>, code: Code, i: nat, out: seq<Issue>)
    requires i < |ids|
    ensures out + UnresolvedIds(ids[i..], known, code) ==
            (if ids[i] in known then out else out + [Critical(code, [ids[i]])])
            + UnresolvedIds(ids[i + 1..], known, code)
  {
    assert ids[i..][1..] == ids[i + 1..];
    Regroup(out, [Critical(code, [ids[i]])], UnresolvedIds(ids[i + 1..], known, code));
  }

  method ValidateProfileRefs(contract: AppContract, profile: Profile, serveAdapters: set<string>,
                             smashAdapters: set<string>, errors: seq<Issue>) returns (out: seq<Issue>)
    requires serveAdapters == IndexIngress(contract.ingressAdapters).Keys
    requires smashAdapters == IndexEgress(contract.egressAdapters).Keys
    ensures out == errors + ReferenceIssues(contract, profile)
  {
    out := CheckRefs(profile.serveAdapters, serveAdapters, MissingServeAdapter, errors);
    out := CheckRefs(profile.smashAdapters, smashAdapters, MissingSmashAdapter, out);
    out := CheckRefs(profile.serveRoutes, ToSet(contract.serveRouteIds), MissingServeRoute, out);
    out := CheckRefs(profile.smashRoutes, ToSet(RouteIds(contract.smashRoutes)), MissingSmashRoute, out);
    RegroupFour(errors, UnresolvedIds(profile.serveAdapters, serveAdapters, MissingServeAdapter),
                UnresolvedIds(profile.smashAdapters, smashAdapters, MissingSmashAdapter),
                UnresolvedIds(profile.serveRoutes, ToSet(contract.serveRouteIds), MissingServeRoute),
                UnresolvedIds(profile.smashRoutes, ToSet(RouteIds(contract.smashRoutes)), MissingSmashRoute));
  }

  method ValidateConfigSchema(kind: string, id: string, driver: string, settings: seq<Setting>,
                              required: seq<string>, optional: seq<string>, errors: seq<Issue>)
    returns (out: seq<Issue>)
    ensures out == errors + SchemaIssues(kind, id, driver, settings, required, optional)
  {
    var allowed := required + optional;
    out := errors;
    ghost var unknown := errors + UnknownKeyIssues(kind, id, driver, settings, allowed);
    for i := 0 to |settings|
      invariant unknown == out + UnknownKeyIssues(kind, id, driver, settings[i..], allowed)
    {
      assert settings[i..][1..] == settings[i + 1..];
      if settings[i].key !in allowed {
        out := out + [Critical(UnknownAdapterKey, [kind, id, driver, settings[i].key])];
      }
    }
    assert out == unknown;
    out := CheckRequired(kind, id, driver, settings, required, out);
  }

  method CheckRequired(kind: string, id: string, driver: string, settings: seq<Setting>,
                       required: seq<string>, errors: seq<Issue>) returns (out: seq<Issue>)
    ensures out == errors + RequiredKeyIssues(kind, id, driver, settings, required)
  {
    out := errors;
    ghost var all := errors + RequiredKeyIssues(kind, id, driver, settings, required);
    for i := 0 to |required|
      invariant all == out + RequiredKeyIssues(kind, id, driver, settings, required[i..])
    {
      assert required[i..][1..] == required[i + 1..];
      match Lookup(settings, required[i]) {
        case Some(value) =>
          if !IsNonEmpty(value) {
            out := out + [Critical(EmptyRequiredValue, [kind, id, driver, required[i]])];
          }
        case None =>
          out := out + [Critical(MissingRequiredKey, [kind, id, driver, required[i]])];
      }
    }
  }

  method ValidateIngressSchemas(adapters: seq<Ingress>, errors: seq<Issue>) returns (out: seq<Issue>)
    ensures out == errors + AllIngressIssues(adapters)
  {
    out := errors;
    ghost var all := errors + AllIngressIssues(adapters);
    for i := 0 to |adapters|
      invariant all == out + AllIngressIssues(adapters[i..])
    {
      assert adapters[i..][1..] == adapters[i + 1..];
      out := ValidateIngressSchema(adapters[i], out);
    }
  }

  method ValidateIngressSchema(adapter: Ingress, errors: seq<Issue>) returns (out: seq<Issue>)
    ensures out == errors + IngressIssues(adapter)
  {
    if adapter.driver.UnknownIngress? {
      return errors + [Critical(UnsupportedIngressDriver, [adapter.id, adapter.driver.name])];
    }
    out := ValidateConfigSchema("serve", adapter.id, IngressName(adapter.driver), adapter.config,
                                IngressRequired(adapter.driver), IngressOptional(adapter.driver), errors);
  }

  method ValidateEgressSchemas(transports: map<string, Transport>, adapters: seq<Egress>, errors: seq<Issue>)
    returns (out: seq<Issue>)
    ensures out == errors + AllEgressIssues(transports, adapters)
  {
    out := errors;
    ghost var all := errors + AllEgressIssues(transports, adapters);
    for i := 0 to |adapters|
      invariant all == out + AllEgressIssues(transports, adapters[i..])
    {
      EgressStep(transports, adapters, i, out);
      out := ValidateEgressSchema(transports, adapters[i], out);
    }
  }

  lemma {:induction false} EgressStep(
    transports: map<string, Transport>, adapters: seq<Egress>, i: nat, out: seq<Issue>)
    requires i < |adapters|
    ensures out + AllEgressIssues(transports, adapters[i..]) ==
            (out + EgressIssues(transports, adapters[i])) + AllEgressIssues(transports, adapters[i + 1..])
  {
    assert adapters[i..][1..] == adapters[i + 1..];
    Regroup(out, EgressIssues(transports, adapters[i]), AllEgressIssues(transports, adapters[i + 1..]));
  }

  method ValidateEgressSchema(transports: map<string, Transport>, adapter: Egress, errors: seq<Issue>)
    returns (out: seq<Issue>)
    ensures out == errors + EgressIssues(transports, adapter)
  {
    if adapter.driver.UnknownEgress? {
      return errors + [Critical(UnsupportedEgressDriver, [adapter.id, adapter.driver.name])];
    }
    out := ValidateConfigSchema("smash", adapter.id, EgressName(adapter.driver), adapter.config,
                                EgressRequired(adapter.driver), ["plugins"], errors);
    if adapter.driver.McpToolOutput? {
      match TrimmedText(Lookup(adapter.config, "transport_ref")) {
        case Some(name) =>
          if name !in transports {
            out := out + [Critical(MissingTransportRef, [adapter.id, name])];
          }
        case None =>
          out := out + [Critical(MissingTransportRef, [adapter.id])];
      }
    }
  }

  method CollectActiveTransportRefs(adapters: seq<Egress>) returns (refs: seq<string>)
    ensures refs == TransportRefs(adapters)
  {
    refs := [];
    for i := 0 to |adapters|
      invariant refs == TransportRefs(adapters[..i])
    {
      assert adapters[..i + 1][..i] == adapters[..i];
      if adapters[i].driver.McpToolOutput? {
        var name := TrimmedText(Lookup(adapters[i].config, "transport_ref"));
        if name.Some? {
          refs := InsertSorted(refs, name.value);
        }
      }
    }
    assert adapters[..|adapters|] == adapters;
  }

  method ValidateTransportSchemas(transports: map<string, Transport>, names: seq<string>, errors: seq<Issue>)
    returns (out: seq<Issue>)
    ensures out == errors + AllTransportIssues(transports, names)
  {
    out := errors;
    ghost var all := errors + AllTransportIssues(transports, names);
    for i := 0 to |names|
      invariant all == out + AllTransportIssues(transports, names[i..])
    {
      assert names[i..][1..] == names[i + 1..];
      Regroup(out, TransportIssues(transports, names[i]), AllTransportIssues(transports, names[i + 1..]));
      if names[i] in transports {
        out := ValidateTransportSchema(transports, names[i], out);
      }
    }
  }

  method ValidateTransportSchema(transports: map<string, Transport>, name: string, errors: seq<Issue>)
    returns (out: seq<Issue>)
    requires name in transports
    ensures out == errors + TransportIssues(transports, name)
  {
    var t := transports[name];
    match t.driver {
      case StdioJsonrpc =>
        out := ValidateConfigSchema("transport", name, "stdio_jsonrpc", t.config,
                                    [], ["command", "args", "env"], errors);
      case HttpSse =>
        out := ValidateConfigSchema("transport", name, "http_sse", t.config, ["url", "auth_mode"], [], errors);
      case UnknownTransport(driver) =>
        out := errors + [Critical(UnsupportedTransportDriver, [name, driver])];
    }
  }

  method ValidateRouteDestinations(routes: seq<Route>, active: seq<string>, known: set<string>, errors: seq<Issue>)
    returns (out: seq<Issue>)
    ensures out == errors + AllRouteIssues(routes, active, known)
  {
    out := errors;
    ghost var all := errors + AllRouteIssues(routes, active, known);
    for i := 0 to |routes|
      invariant all == out + AllRouteIssues(routes[i..], active, known)
    {
      assert routes[i..][1..] == routes[i + 1..];
      Regroup(out, RouteIssues(routes[i], active, known), AllRouteIssues(routes[i + 1..], active, known));
      out := ValidateRoute(routes[i], active, known, out);
    }
  }

  method ValidateRoute(route: Route, active: seq<string>, known: set<string>, errors: seq<Issue>)
    returns (out: seq<Issue>)
    ensures out == errors + RouteIssues(route, active, known)
  {
    if route.destinations == [] {
      return errors + [Critical(EmptyRouteDestinations, [route.id])];
    }
    out := CheckDestinations(route.id, route.destinations, active, known, errors);
  }

  method CheckDestinations(routeId: string, ds: seq<Destination>, active: seq<string>, known: set<string>,
                           errors: seq<Issue>) returns (out: seq<Issue>)
    ensures out == errors + DestinationIssues(routeId, ds, active, known)
  {
    out := errors;
    ghost var all := errors + DestinationIssues(routeId, ds, active, known);
    for i := 0 to |ds|
      invariant all == out + DestinationIssues(routeId, ds[i..], active, known)
    {
      assert ds[i..][1..] == ds[i + 1..];
      if ds[i].adapterId !in active {
        out := out + [Critical(InactiveDestinationAdapter, [routeId, ds[i].adapterId])];
        continue;
      }
      if ds[i].adapterId !in known {
        out := out + [Critical(MissingDestinationAdapter, [routeId, ds[i].adapterId])];
      }
    }
  }

  method ValidateNoOutputPolicy(policies: Policies, profile: Profile, routes: seq<Route>, errors: seq<Issue>)
    returns (out: seq<Issue>)
    ensures out == errors + NoOutputIssues(policies, profile, routes)
  {
    out := errors;
    if HasActiveDestination(routes, profile.smashAdapters) {
      return;
    }
    if !policies.allowNoOutput {
      return out + [Critical(NoSmashOutputs, [])];
    }
    if policies.noOutputSink.None? {
      out := out + [Critical(MissingNoOutputSink, [])];
    }
    if policies.noOutputSink == Some(Dlq) && profile.smashRoutes == [] {
      out := out + [Critical(DlqWithoutRoutes, [])];
    }
  }

  method ValidateAdapters(contract: AppContract, profile: Profile, ingress: map<string, Ingress>,
                          egress: map<string, Egress>, errors: seq<Issue>) returns (out: seq<Issue>)
    requires ingress == IndexIngress(contract.ingressAdapters) && egress == IndexEgress(contract.egressAdapters)
    ensures out == errors + AdapterIssues(contract, profile)
  {
    var activeEgress := ActiveEgress(profile.smashAdapters, egress);
    var refs := CollectActiveTransportRefs(activeEgress);
    var activeIngress := ActiveIngress(profile.serveAdapters, ingress);
    out := ValidateIngressSchemas(activeIngress, errors);
    out := ValidateEgressSchemas(contract.transports, activeEgress, out);
    out := ValidateTransportSchemas(contract.transports, refs, out);
    RegroupThree(errors, AllIngressIssues(activeIngress), AllEgressIssues(contract.transports, activeEgress),
                 AllTransportIssues(contract.transports, refs));
  }

  method ValidateOutputs(contract: AppContract, profile: Profile, egress: map<string, Egress>, errors: seq<Issue>)
    returns (out: seq<Issue>)
    requires egress == IndexEgress(contract.egressAdapters)
    ensures out == errors + OutputIssues(contract, profile)
  {
    var routes := ActiveRoutes(contract.smashRoutes, profile.smashRoutes);
    out := ValidateRouteDestinations(routes, profile.smashAdapters, egress.Keys, errors);
    out := ValidateNoOutputPolicy(contract.policies, profile, routes, out);
    Regroup(errors, AllRouteIssues(routes, profile.smashAdapters, egress.Keys),
            NoOutputIssues(contract.policies, profile, routes));
  }

  method CollectErrors(contract: AppContract, profile: Profile) returns (errors: seq<Issue>)
    ensures errors == ProfileIssues(contract, profile)
  {
    var ingress := IndexIngressAdapters(contract.ingressAdapters);
    var egress := IndexEgressAdapters(contract.egressAdapters);
    var references := ValidateProfileRefs(contract, profile, ingress.Keys, egress.Keys, []);
    var adapters := ValidateAdapters(contract, profile, ingress, egress, references);
    var outputs := ValidateOutputs(contract, profile, egress, adapters);
    errors := outputs + LabelIssues(contract.policies.validationMode, profile);
    Assemble(contract, profile, references, adapters, outputs);
  }

  lemma {:induction false} Assemble(
    contract: AppContract, profile: Profile, references: seq<Issue>, adapters: seq<Issue>, outputs: seq<Issue>)
    requires references == [] + ReferenceIssues(contract, profile)
    requires adapters == references + AdapterIssues(contract, profile)
    requires outputs == adapters + OutputIssues(contract, profile)
    ensures outputs == StructuralIssues(contract, profile)
  {
    assert references == ReferenceIssues(contract, profile);
  }

  /** The validators one after the other; the profile is valid exactly when none reports anything. */
  method ValidateContract(contract: AppContract, profileName: string)
    returns (result: Result<ValidatedProfile, seq<Issue>>)
    ensures result == Validated(contract, profileName)
  {
    if profileName !in contract.profiles {
      return Err([Critical(MissingProfile, [profileName])]);
    }
    var profile, mode := contract.profiles[profileName], contract.policies.validationMode;
    var errors := CollectErrors(contract, profile);
    if errors == [] {
      return Ok(ValidatedProfile(profileName, mode, profile.serveAdapters, profile.smashAdapters,
                                 profile.serveRoutes, profile.smashRoutes, Skipped(mode)));
    }
    return Err(errors);
  }
}
