/**
  What the three configuration layers guarantee together: a profile that validates and
  projects leaves the runtime nothing to complain about except repeated ids and single
  fields, and a runtime that starts never meets an unknown adapter.
 */
module StartupLaws {
  import opened Wrappers
  import opened Text
  import opened Smash
  import opened Contract
  import opened ContractValidator
  import opened ProfileValidity
  import opened Projection
  import opened RuntimeConfig
  import opened TopicLaws

  // ----- Distinct ids -----

  /** The names that `ids` lists, in their own order. */
  function Kept(names: seq<string>, ids: seq<string>): (kept: seq<string>)
    ensures forall name :: name in kept <==> name in names && name in ids
  {
    if names == [] then []
    else
      var n := |names| - 1;
      Kept(names[..n], ids) + if names[n] in ids then [names[n]] else []
  }

  function EgressIds(adapters: seq<Egress>): (ids: seq<string>)
    ensures |ids| == |adapters| && forall i :: 0 <= i < |ids| ==> ids[i] == adapters[i].id
  {
    seq(|adapters|, i requires 0 <= i < |adapters| => adapters[i].id)
  }

  function EnvIds(adapters: seq<AdapterEnv>): (ids: seq<string>)
    ensures |ids| == |adapters| && forall i :: 0 <= i < |ids| ==> ids[i] == adapters[i].id
  {
    seq(|adapters|, i requires 0 <= i < |adapters| => adapters[i].id)
  }

  lemma {:induction false} DistinctCons(name: string, rest: seq<string>)
    ensures Distinct([name] + rest) <==> name !in rest && Distinct(rest)
  {
    var all := [name] + rest;
    if Distinct(all) {
      forall i, j | 0 <= i < j < |rest|
        ensures rest[i] != rest[j]
      {
        assert all[i + 1] != all[j + 1];
      }
      forall j | 0 <= j < |rest|
        ensures rest[j] != name
      {
        assert all[0] != all[j + 1];
      }
    }
  }

  lemma {:induction false} DistinctSnoc(front: seq<string>, name: string)
    ensures Distinct(front + [name]) <==> Distinct(front) && name !in front
  {
    var all := front + [name];
    if Distinct(all) {
      forall i, j | 0 <= i < j < |front|
        ensures front[i] != front[j]
      {
        assert all[i] != all[j];
      }
      forall i | 0 <= i < |front|
        ensures front[i] != name
      {
        assert all[i] != all[|front|];
      }
    }
  }

  /** Distinct names, none of them seen before. */
  ghost predicate NoClash(names: seq<string>, seen: set<string>) {
    Distinct(names) && forall name :: name in names ==> name !in seen
  }

  lemma {:induction false} NoClashCons(name: string, rest: seq<string>, seen: set<string>)
    ensures NoClash([name] + rest, seen) <==> name !in seen && NoClash(rest, seen + {name})
  {
    DistinctCons(name, rest);
    if NoClash([name] + rest, seen) {
      assert ([name] + rest)[0] !in seen;
    }
  }

  // ----- What the projection yields -----

  /** `env` comes from an adapter of the contract that the profile names. */
  ghost predicate ComesFrom(adapters: seq<Egress>, ids: seq<string>, env: AdapterEnv) {
    exists a :: a in adapters && a.id in ids && ToAdapterEnv(a) == Some(env)
  }

  /** One step of the adapter projection. */
  lemma {:induction false} AdaptersStep(adapters: seq<Egress>, ids: seq<string>)
    requires adapters != [] && ProjectAdapters(adapters, ids).Ok?
    ensures var n := |adapters| - 1;
            var front, all := ProjectAdapters(adapters[..n], ids), ProjectAdapters(adapters, ids).value;
            && front.Ok?
            && (adapters[n].id !in ids ==> all == front.value)
            && (adapters[n].id in ids ==>
                  ToAdapterEnv(adapters[n]).Some? && all == front.value + [ToAdapterEnv(adapters[n]).value])
  {}

  lemma {:induction false} EnvIdsSnoc(adapters: seq<AdapterEnv>, last: AdapterEnv)
    ensures EnvIds(adapters + [last]) == EnvIds(adapters) + [last.id]
  {}

  lemma {:induction false} KeptStep(adapters: seq<Egress>, ids: seq<string>)
    requires adapters != []
    ensures var n := |adapters| - 1;
            var front := Kept(EgressIds(adapters[..n]), ids);
            Kept(EgressIds(adapters), ids) == if adapters[n].id in ids then front + [adapters[n].id] else front
  {
    var n := |adapters| - 1;
    assert EgressIds(adapters)[..n] == EgressIds(adapters[..n]);
  }

  /** The projection keeps the named adapters, in order, once each. */
  lemma {:induction false} AdapterIdsProjected(adapters: seq<Egress>, ids: seq<string>)
    requires ProjectAdapters(adapters, ids).Ok?
    ensures EnvIds(ProjectAdapters(adapters, ids).value) == Kept(EgressIds(adapters), ids)
  {
    if adapters != [] {
      var n := |adapters| - 1;
      AdaptersStep(adapters, ids);
      AdapterIdsProjected(adapters[..n], ids);
      KeptStep(adapters, ids);
      if adapters[n].id in ids {
        EnvIdsSnoc(ProjectAdapters(adapters[..n], ids).value, ToAdapterEnv(adapters[n]).value);
      }
    }
  }

  lemma {:induction false} AdaptersProjected(adapters: seq<Egress>, ids: seq<string>)
    requires ProjectAdapters(adapters, ids).Ok?
    ensures forall env :: env in ProjectAdapters(adapters, ids).value ==> ComesFrom(adapters, ids, env)
  {
    if adapters != [] {
      var n := |adapters| - 1;
      AdaptersProjected(adapters[..n], ids);
      forall env | env in ProjectAdapters(adapters, ids).value
        ensures ComesFrom(adapters, ids, env)
      {
        if env in ProjectAdapters(adapters[..n], ids).value {
          var a :| a in adapters[..n] && a.id in ids && ToAdapterEnv(a) == Some(env);
          assert a in adapters;
        } else {
          assert adapters[n] in adapters;
        }
      }
    }
  }

  /** `route` is a route of the contract that the profile names, with its pattern trimmed. */
  ghost predicate RouteComesFrom(routes: seq<Route>, ids: seq<string>, route: Route) {
    exists r :: r in routes && r.id in ids && ProjectRoute(r) == Ok(route)
  }

  lemma {:induction false} RouteIdsProjected(routes: seq<Route>, ids: seq<string>)
    requires ProjectRoutes(routes, ids).Ok?
    ensures RouteIds(ProjectRoutes(routes, ids).value) == Kept(RouteIds(routes), ids)
  {
    if routes != [] {
      var n := |routes| - 1;
      RouteIdsProjected(routes[..n], ids);
      assert RouteIds(routes)[..n] == RouteIds(routes[..n]);
    }
  }

  lemma {:induction false} RoutesProjected(routes: seq<Route>, ids: seq<string>)
    requires ProjectRoutes(routes, ids).Ok?
    ensures forall route :: route in ProjectRoutes(routes, ids).value ==> RouteComesFrom(routes, ids, route)
  {
    if routes != [] {
      var n := |routes| - 1;
      RoutesProjected(routes[..n], ids);
      forall route | route in ProjectRoutes(routes, ids).value
        ensures RouteComesFrom(routes, ids, route)
      {
        if route in ProjectRoutes(routes[..n], ids).value {
          var r :| r in routes[..n] && r.id in ids && ProjectRoute(r) == Ok(route);
          assert r in routes;
        } else {
          assert routes[n] in routes;
        }
      }
    }
  }

  /** One step of the transport projection. */
  lemma {:induction false} TransportsStep(transports: map<string, Transport>, adapters: seq<AdapterEnv>)
    requires adapters != [] && ProjectTransports(transports, adapters).Ok?
    ensures var last := adapters[|adapters| - 1];
            var front := ProjectTransports(transports, adapters[..|adapters| - 1]);
            var all := ProjectTransports(transports, adapters).value;
            && front.Ok?
            && (last.target.Mcp? ==> exists t :: all == front.value + [t] && t.name == last.target.transportRef)
            && (!last.target.Mcp? ==> all == front.value)
  {
    var last := adapters[|adapters| - 1];
    if last.target.Mcp? {
      var name := last.target.transportRef;
      var env := ToTransportEnv(name, transports[name]).value;
      assert env.name == name;
    }
  }

  ghost predicate Offers(transports: seq<TransportEnv>, name: string) {
    exists t :: t in transports && t.name == name
  }

  /** Every MCP adapter's transport was projected under its name. */
  lemma {:induction false} TransportsProjected(transports: map<string, Transport>, adapters: seq<AdapterEnv>, i: nat)
    requires ProjectTransports(transports, adapters).Ok? && i < |adapters| && adapters[i].target.Mcp?
    ensures Offers(ProjectTransports(transports, adapters).value, adapters[i].target.transportRef)
  {
    var n := |adapters| - 1;
    var all := ProjectTransports(transports, adapters).value;
    TransportsStep(transports, adapters);
    if i < n {
      TransportsProjected(transports, adapters[..n], i);
      var front := ProjectTransports(transports, adapters[..n]).value;
      var t :| t in front && t.name == adapters[i].target.transportRef;
      assert t in all;
    } else {
      assert all[|all| - 1] in all;
    }
  }

  // ----- Validated adapters are the projected ones -----

  /** With distinct active ids the index leads back to the adapter itself. */
  lemma {:induction false} IndexedByDistinctId(adapters: seq<Egress>, ids: seq<string>, i: nat)
    requires Distinct(Kept(EgressIds(adapters), ids)) && i < |adapters| && adapters[i].id in ids
    ensures adapters[i].id in IndexEgress(adapters) && IndexEgress(adapters)[adapters[i].id] == adapters[i]
  {
    var n := |adapters| - 1;
    if i < n {
      var ahead := EgressIds(adapters[..n]);
      assert ahead[i] in ahead;
      var kept := Kept(ahead, ids);
      KeptStep(adapters, ids);
      DistinctSnoc(kept, adapters[n].id);
      IndexedByDistinctId(adapters[..n], ids, i);
    }
  }

  lemma {:induction false} IndexedIsDeclared(adapters: seq<Egress>, id: string)
    requires id in IndexEgress(adapters)
    ensures exists a :: a in adapters && a.id == id
  {
    var n := |adapters| - 1;
    if adapters[n].id != id {
      IndexedIsDeclared(adapters[..n], id);
      var a :| a in adapters[..n] && a.id == id;
      assert a in adapters;
    }
  }

  lemma {:induction false} NamedIsActive(ids: seq<string>, byId: map<string, Egress>, id: string)
    requires id in ids && id in byId
    ensures byId[id] in ActiveEgress(ids, byId)
  {
    if ids[0] != id {
      NamedIsActive(ids[1..], byId, id);
    }
  }

  lemma {:induction false} NamedRouteIsActive(routes: seq<Route>, ids: seq<string>, route: Route)
    requires route in routes && route.id in ids
    ensures route in ActiveRoutes(routes, ids)
  {
    if routes[0] != route {
      NamedRouteIsActive(routes[1..], ids, route);
    }
  }

  // ----- The runtime's loops, as conditions -----

  ghost predicate AllPass(adapters: seq<AdapterEnv>, check: AdapterEnv -> Option<RuntimeError>) {
    adapters == []
    || (!Blank(adapters[0].id) && check(adapters[0]).None? && AllPass(adapters[1..], check))
  }

  lemma {:induction false} AllPassExact(adapters: seq<AdapterEnv>, check: AdapterEnv -> Option<RuntimeError>)
    ensures AllPass(adapters, check) <==> forall a :: a in adapters ==> !Blank(a.id) && check(a).None?
  {
    if adapters != [] {
      AllPassExact(adapters[1..], check);
      assert adapters == [adapters[0]] + adapters[1..];
    }
  }

  /** The adapter loop passes exactly when no id clashes or is blank and every adapter passes its check. */
  lemma {:induction false} AdaptersAccepted(
    adapters: seq<AdapterEnv>, seen: set<string>, check: AdapterEnv -> Option<RuntimeError>)
    ensures FirstAdapterError(adapters, seen, check).None? <==>
            NoClash(EnvIds(adapters), seen) && AllPass(adapters, check)
  {
    if adapters != [] {
      var head, tail := adapters[0], adapters[1..];
      AdaptersAccepted(tail, seen + {head.id}, check);
      assert EnvIds(adapters) == [head.id] + EnvIds(tail);
      NoClashCons(head.id, EnvIds(tail), seen);
    }
  }

  ghost predicate RouteAccepted(route: Route, known: set<string>) {
    !Blank(route.id) && !Blank(route.sourceTopicPattern) && forall d :: d in route.destinations ==> d.adapterId in known
  }

  lemma {:induction false} DestinationsKnown(routeId: string, ds: seq<Destination>, known: set<string>)
    ensures DestinationError(routeId, ds, known).None? <==> forall d :: d in ds ==> d.adapterId in known
  {
    if ds != [] {
      DestinationsKnown(routeId, ds[1..], known);
      assert ds == [ds[0]] + ds[1..];
    }
  }

  ghost predicate AllAccepted(routes: seq<Route>, known: set<string>) {
    routes == [] || (RouteAccepted(routes[0], known) && AllAccepted(routes[1..], known))
  }

  lemma {:induction false} AllAcceptedExact(routes: seq<Route>, known: set<string>)
    ensures AllAccepted(routes, known) <==> forall r :: r in routes ==> RouteAccepted(r, known)
  {
    if routes != [] {
      AllAcceptedExact(routes[1..], known);
      assert routes == [routes[0]] + routes[1..];
    }
  }

  lemma {:induction false} RoutesAccepted(routes: seq<Route>, seen: set<string>, known: set<string>)
    ensures RoutesError(routes, seen, known).None? <==>
            NoClash(RouteIds(routes), seen) && AllAccepted(routes, known)
  {
    if routes != [] {
      var head, tail := routes[0], routes[1..];
      RoutesAccepted(tail, seen + {head.id}, known);
      assert RouteIds(routes) == [head.id] + RouteIds(tail);
      DestinationsKnown(head.id, head.destinations, known);
      NoClashCons(head.id, RouteIds(tail), seen);
    }
  }

  // ----- From a projected profile to the runtime's conditions -----

  /** `active` is what the profile projects to. */
  ghost predicate Projects(contract: AppContract, profile: Profile, active: Active) {
    && ProjectAdapters(contract.egressAdapters, profile.smashAdapters) == Ok(active.adapters)
    && ProjectRoutes(contract.smashRoutes, profile.smashRoutes) == Ok(active.routes)
    && ProjectTransports(contract.transports, active.adapters) == Ok(active.transports)
    && active.topics == TopicsOf(active.routes)
  }

  /** A projection with routes comes from a profile that holds. */
  lemma {:induction false} ProjectionIsValidated(
    contract: AppContract, profileName: string, mode: Option<ValidationMode>, force: bool, active: Active)
    requires Project(contract, profileName, mode, force) == Ok(active)
    requires active.routes != [] || Validated(WithMode(contract, mode), profileName).Ok?
    ensures profileName in contract.profiles
    ensures var profile := contract.profiles[profileName];
            ProfileHolds(WithMode(contract, mode), profile) && Projects(contract, profile, active)
  {
    ValidatedExactly(WithMode(contract, mode), profileName);
  }

  /** What the runtime wants of a route, short of its id. */
  ghost predicate RouteClosed(route: Route, known: set<string>) {
    && route.destinations != []
    && Literal(route.sourceTopicPattern)
    && forall d :: d in route.destinations ==> d.adapterId in known
  }

  lemma {:induction false} DeclaredIsProjected(contract: AppContract, profile: Profile, active: Active, id: string)
    requires Projects(contract, profile, active)
    requires id in profile.smashAdapters && id in IndexEgress(contract.egressAdapters)
    ensures id in AdapterIds(active.adapters)
  {
    IndexedIsDeclared(contract.egressAdapters, id);
    var a :| a in contract.egressAdapters && a.id == id;
    var i :| 0 <= i < |contract.egressAdapters| && contract.egressAdapters[i] == a;
    assert EgressIds(contract.egressAdapters)[i] == id;
    AdapterIdsProjected(contract.egressAdapters, profile.smashAdapters);
    assert id in EnvIds(active.adapters);
  }

  /** Every projected route has destinations, all of them projected adapters, and a literal topic. */
  lemma {:induction false} RoutesClosed(contract: AppContract, profile: Profile, active: Active)
    requires OutputsHold(contract, profile) && Projects(contract, profile, active)
    ensures forall route :: route in active.routes ==> RouteClosed(route, AdapterIds(active.adapters))
  {
    RoutesProjected(contract.smashRoutes, profile.smashRoutes);
    forall route | route in active.routes
      ensures RouteClosed(route, AdapterIds(active.adapters))
    {
      var r :| r in contract.smashRoutes && r.id in profile.smashRoutes && ProjectRoute(r) == Ok(route);
      NamedRouteIsActive(contract.smashRoutes, profile.smashRoutes, r);
      TrimIdempotent(r.sourceTopicPattern);
      forall d | d in route.destinations
        ensures d.adapterId in AdapterIds(active.adapters)
      {
        DeclaredIsProjected(contract, profile, active, d.adapterId);
      }
    }
  }

  /** `env` is the projection of an adapter whose table is valid. */
  ghost predicate SoundlyProjected(transports: map<string, Transport>, env: AdapterEnv) {
    exists a :: EgressHolds(transports, a) && ToAdapterEnv(a) == Some(env)
  }

  /** With distinct active ids, every projected adapter is one the validator looked at. */
  lemma {:induction false} AdaptersSound(contract: AppContract, profile: Profile, envs: seq<AdapterEnv>)
    requires AdaptersHold(contract, profile)
    requires ProjectAdapters(contract.egressAdapters, profile.smashAdapters) == Ok(envs)
    requires Distinct(Kept(EgressIds(contract.egressAdapters), profile.smashAdapters))
    ensures forall env :: env in envs ==> SoundlyProjected(contract.transports, env)
  {
    var adapters, ids := contract.egressAdapters, profile.smashAdapters;
    AdaptersProjected(adapters, ids);
    forall env | env in envs
      ensures SoundlyProjected(contract.transports, env)
    {
      var a :| a in adapters && a.id in ids && ToAdapterEnv(a) == Some(env);
      var i :| 0 <= i < |adapters| && adapters[i] == a;
      IndexedByDistinctId(adapters, ids, i);
      NamedIsActive(ids, IndexEgress(adapters), a.id);
    }
  }

  lemma {:induction false} LookupFinds(settings: seq<Setting>, key: string)
    ensures Lookup(settings, key).Some? ==> exists s :: s in settings && s.key == key
  {
    if settings != [] && settings[0].key != key {
      LookupFinds(settings[1..], key);
      if Lookup(settings[1..], key).Some? {
        var s :| s in settings[1..] && s.key == key;
        assert s in settings;
      }
    }
  }

  /**
    The field conditions left to the runtime once a profile validates and projects. A
    validated table cannot carry the websocket adapters' `token_env`, so of their
    authentication modes only "none" remains.
   */
  ghost predicate Usable(target: Target) {
    match target
    case Openclaw(_, _, timeout, _) => timeout > 0
    case Mcp(_, _) => true
    case WebsocketClient(_, auth, _, timeout, _, _) => auth == "none" && timeout > 0
    case WebsocketServer(_, _, auth, _, clients, depth, timeout) =>
      auth == "none" && clients > 0 && depth > 0 && timeout > 0
    case KafkaTopic(_, keyMode) => keyMode in ["event_id", "source", "none"]
  }

  lemma {:induction false} RequiredStringTrimmed(settings: seq<Setting>, key: string)
    ensures var text := RequiredString(settings, key);
            text.Some? ==> text.value != "" && Trim(text.value) == text.value
  {
    match Lookup(settings, key) {
      case Some(StringValue(text)) => TrimIdempotent(text);
      case _ =>
    }
  }

  lemma {:induction false} NoTokenForWebsockets(transports: map<string, Transport>, a: Egress)
    requires EgressHolds(transports, a) && (a.driver.WebsocketClientOutput? || a.driver.WebsocketServerOutput?)
    ensures Lookup(a.config, "token_env") == None
  {
    LookupFinds(a.config, "token_env");
  }

  ghost predicate Trimmed(text: string) { text != "" && Trim(text) == text }

  /** What validation and projection make sure of in a target's string fields. */
  ghost predicate StringsHold(target: Target) {
    match target
    case Openclaw(url, token, _, _) => Trimmed(url) && Trimmed(token)
    case Mcp(tool, transport) => Trimmed(tool) && Trimmed(transport)
    case WebsocketClient(url, auth, token, _, _, _) => Trimmed(url) && Trimmed(auth) && token == None
    case WebsocketServer(bind, path, auth, token, _, _, _) =>
      Trimmed(bind) && Trimmed(path) && Trimmed(auth) && token == None
    case KafkaTopic(topic, keyMode) => Trimmed(topic) && Trimmed(keyMode)
  }

  lemma {:induction false} StringsConverted(driver: EgressDriver, config: seq<Setting>)
    requires ToTarget(driver, config).Some?
    requires driver.WebsocketClientOutput? || driver.WebsocketServerOutput? ==> Lookup(config, "token_env") == None
    ensures StringsHold(ToTarget(driver, config).value)
  {
    match driver {
      case OpenclawHttpOutput =>
        RequiredStringTrimmed(config, "url");
        RequiredStringTrimmed(config, "token_env");
      case McpToolOutput =>
        RequiredStringTrimmed(config, "tool_name");
        RequiredStringTrimmed(config, "transport_ref");
      case WebsocketClientOutput =>
        RequiredStringTrimmed(config, "url");
        RequiredStringTrimmed(config, "auth_mode");
      case WebsocketServerOutput =>
        RequiredStringTrimmed(config, "bind");
        RequiredStringTrimmed(config, "path");
        RequiredStringTrimmed(config, "auth_mode");
      case KafkaOutput =>
        RequiredStringTrimmed(config, "topic");
        RequiredStringTrimmed(config, "key_mode");
      case UnknownEgress(_) =>
    }
  }

  lemma {:induction false} StringsProjected(transports: map<string, Transport>, env: AdapterEnv)
    requires SoundlyProjected(transports, env)
    ensures StringsHold(env.target)
  {
    var a :| EgressHolds(transports, a) && ToAdapterEnv(a) == Some(env);
    if a.driver.WebsocketClientOutput? || a.driver.WebsocketServerOutput? {
      NoTokenForWebsockets(transports, a);
    }
    StringsConverted(a.driver, a.config);
  }

  /** The fields of a soundly projected adapter pass exactly when it is usable. */
  lemma {:induction false} FieldsExact(env: AdapterEnv, transports: seq<TransportEnv>)
    requires StringsHold(env.target)
    requires env.target.Mcp? ==> Offers(transports, env.target.transportRef)
    ensures FieldError(env, transports).None? <==> Usable(env.target) && PluginsValid(env.plugins)
  {}

  // ----- Starting -----

  /** The ids of the contract's adapters and routes that the profile names do not repeat. */
  ghost predicate DistinctlyNamed(contract: AppContract, profile: Profile) {
    && Distinct(Kept(EgressIds(contract.egressAdapters), profile.smashAdapters))
    && Distinct(Kept(RouteIds(contract.smashRoutes), profile.smashRoutes))
  }

  /** The conditions on single values that only the runtime checks. */
  ghost predicate FieldLevelHolds(active: Active, environment: Environment) {
    && environment.messageMaxBytes >= 128
    && !Blank(environment.dlqTopic)
    && (forall a :: a in active.adapters ==> !Blank(a.id) && Usable(a.target) && PluginsValid(a.plugins))
    && (forall r :: r in active.routes ==> !Blank(r.id))
  }

  function Subscribed(active: Active, environment: Environment): seq<string> {
    var given := TopicsGiven(TopicsVariable(active, environment));
    if given == [] then active.topics else given
  }

  function RuntimeFor(active: Active, environment: Environment): Runtime {
    Runtime(active.adapters, active.routes, active.transports, Subscribed(active, environment),
            active.allowNoOutput, active.noOutputSink, environment.messageMaxBytes, environment.dlqTopic)
  }

  /** Routes that lead somewhere, and their patterns as topics. */
  ghost predicate Closed(active: Active) {
    && active.topics == TopicsOf(active.routes)
    && forall route :: route in active.routes ==> RouteClosed(route, AdapterIds(active.adapters))
  }

  /** A projection with routes is closed, whatever the contract. */
  lemma {:induction false} ProjectionIsClosed(
    contract: AppContract, profileName: string, mode: Option<ValidationMode>, force: bool, active: Active)
    requires Project(contract, profileName, mode, force) == Ok(active) && active.routes != []
    ensures Closed(active)
  {
    ProjectionIsValidated(contract, profileName, mode, force, active);
    var profile, checked := contract.profiles[profileName], WithMode(contract, mode);
    assert Projects(checked, profile, active);
    RoutesClosed(checked, profile, active);
  }

  /** Closed routes leave the runtime with adapters, topics and outputs, so only its validation can fail. */
  lemma {:induction false} ReachesValidation(active: Active, environment: Environment)
    requires active.routes != [] && Closed(active)
    ensures active.adapters != [] && HasDestinations(active.routes) && Subscribed(active, environment) != []
    ensures var runtime := RuntimeFor(active, environment);
            Start(active, environment) ==
            match RuntimeErrorOf(runtime, false) case Some(error) => Err(error) case None => Ok(runtime)
  {
    var first := active.routes[0];
    assert first in active.routes;
    assert first.destinations[0].adapterId in AdapterIds(active.adapters);
    DerivedAsProjected(active.routes);
    assert first.sourceTopicPattern in TopicsOf(active.routes);
  }

  lemma {:induction false} ValidationPasses(runtime: Runtime, legacy: bool)
    requires HasDestinations(runtime.routes)
    ensures RuntimeErrorOf(runtime, legacy).None? <==>
            && runtime.messageMaxBytes >= 128
            && !Blank(runtime.dlqTopic)
            && AdaptersError(runtime.adapters, runtime.transports).None?
            && RoutesError(runtime.routes, {}, AdapterIds(runtime.adapters)).None?
  {}

  lemma {:induction false} AdaptersPassExactly(contract: AppContract, profile: Profile, active: Active)
    requires AdaptersHold(contract, profile) && Projects(contract, profile, active)
    ensures AdaptersError(active.adapters, active.transports).None? <==>
            && Distinct(Kept(EgressIds(contract.egressAdapters), profile.smashAdapters))
            && forall a :: a in active.adapters ==> !Blank(a.id) && Usable(a.target) && PluginsValid(a.plugins)
  {
    AdapterIdsProjected(contract.egressAdapters, profile.smashAdapters);
    var check := a => FieldError(a, active.transports);
    AdaptersAccepted(active.adapters, {}, check);
    AllPassExact(active.adapters, check);
    if Distinct(EnvIds(active.adapters)) {
      AdaptersSound(contract, profile, active.adapters);
      forall a | a in active.adapters
        ensures FieldError(a, active.transports).None? <==> Usable(a.target) && PluginsValid(a.plugins)
      {
        var i :| 0 <= i < |active.adapters| && active.adapters[i] == a;
        if a.target.Mcp? {
          TransportsProjected(contract.transports, active.adapters, i);
        }
        StringsProjected(contract.transports, a);
        FieldsExact(a, active.transports);
      }
    }
  }

  lemma {:induction false} RoutesPassExactly(contract: AppContract, profile: Profile, active: Active)
    requires OutputsHold(contract, profile) && Projects(contract, profile, active)
    ensures RoutesError(active.routes, {}, AdapterIds(active.adapters)).None? <==>
            && Distinct(Kept(RouteIds(contract.smashRoutes), profile.smashRoutes))
            && forall r :: r in active.routes ==> !Blank(r.id)
  {
    RouteIdsProjected(contract.smashRoutes, profile.smashRoutes);
    RoutesClosed(contract, profile, active);
    RoutesAccepted(active.routes, {}, AdapterIds(active.adapters));
    AllAcceptedExact(active.routes, AdapterIds(active.adapters));
  }

  lemma {:induction false} HoldingProfileStarts(
    contract: AppContract, profile: Profile, active: Active, environment: Environment)
    requires ProfileHolds(contract, profile) && Projects(contract, profile, active) && active.routes != []
    ensures Start(active, environment).Ok? <==>
            DistinctlyNamed(contract, profile) && FieldLevelHolds(active, environment)
  {
    RoutesClosed(contract, profile, active);
    StartsIfChecksPass(active, environment);
    AdaptersPassExactly(contract, profile, active);
    RoutesPassExactly(contract, profile, active);
  }

  /** Closed routes start exactly when the two limits and the two loops pass. */
  lemma {:induction false} StartsIfChecksPass(active: Active, environment: Environment)
    requires active.routes != [] && Closed(active)
    ensures Start(active, environment).Ok? <==>
            && environment.messageMaxBytes >= 128
            && !Blank(environment.dlqTopic)
            && AdaptersError(active.adapters, active.transports).None?
            && RoutesError(active.routes, {}, AdapterIds(active.adapters)).None?
  {
    ReachesValidation(active, environment);
    ValidationPasses(RuntimeFor(active, environment), false);
  }

  /**
    A profile that projects to at least one route starts exactly when its ids do not
    repeat and the field-level conditions hold: the runtime's checks of destinations,
    transports, patterns, topics and outputs never fail.
   */
  lemma {:induction false} StartsExactly(
    contract: AppContract, profileName: string, mode: Option<ValidationMode>, force: bool,
    active: Active, environment: Environment)
    requires Project(contract, profileName, mode, force) == Ok(active) && active.routes != []
    ensures profileName in contract.profiles
    ensures Start(active, environment).Ok? <==>
            DistinctlyNamed(contract, contract.profiles[profileName]) && FieldLevelHolds(active, environment)
  {
    ProjectionIsValidated(contract, profileName, mode, force, active);
    var profile, checked := contract.profiles[profileName], WithMode(contract, mode);
    assert Projects(checked, profile, active);
    HoldingProfileStarts(checked, profile, active, environment);
  }
}
