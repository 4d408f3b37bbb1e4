/** When a profile is valid, said without issue lists, and proved equivalent to an empty list. */
module ProfileValidity {
  import opened Wrappers
  import opened Text
  import opened Smash
  import opened Contract
  import opened ContractValidator

  ghost predicate KeyHolds(settings: seq<Setting>, key: string) {
    Lookup(settings, key).Some? && IsNonEmpty(Lookup(settings, key).value)
  }

  /** Only known keys, and every required one present with a non-empty value. */
  ghost predicate SchemaHolds(settings: seq<Setting>, required: seq<string>, optional: seq<string>) {
    && (forall s :: s in settings ==> s.key in required + optional)
    && (forall key :: key in required ==> KeyHolds(settings, key))
  }

  ghost predicate IngressHolds(adapter: Ingress) {
    && !adapter.driver.UnknownIngress?
    && SchemaHolds(adapter.config, IngressRequired(adapter.driver), IngressOptional(adapter.driver))
  }

  ghost predicate TransportHolds(transport: Transport) {
    match transport.driver
    case StdioJsonrpc => SchemaHolds(transport.config, [], ["command", "args", "env"])
    case HttpSse => SchemaHolds(transport.config, ["url", "auth_mode"], [])
    case UnknownTransport(_) => false
  }

  /** A known driver with a well-formed table; an MCP adapter names a declared transport. */
  ghost predicate EgressHolds(transports: map<string, Transport>, adapter: Egress) {
    && !adapter.driver.UnknownEgress?
    && SchemaHolds(adapter.config, EgressRequired(adapter.driver), ["plugins"])
    && (adapter.driver.McpToolOutput? ==> TransportRef(adapter).Some? && TransportRef(adapter).value in transports)
  }

  ghost predicate RouteHolds(route: Route, active: seq<string>, known: set<string>) {
    && route.destinations != []
    && forall d :: d in route.destinations ==> d.adapterId in active && d.adapterId in known
  }

  ghost predicate OutputPolicyHolds(policies: Policies, profile: Profile, routes: seq<Route>) {
    || HasActiveDestination(routes, profile.smashAdapters)
    || (policies.allowNoOutput && policies.noOutputSink.Some?
        && !(policies.noOutputSink == Some(Dlq) && profile.smashRoutes == []))
  }

  ghost predicate ReferencesHold(contract: AppContract, profile: Profile) {
    && (forall id :: id in profile.serveAdapters ==> id in IndexIngress(contract.ingressAdapters))
    && (forall id :: id in profile.smashAdapters ==> id in IndexEgress(contract.egressAdapters))
    && (forall id :: id in profile.serveRoutes ==> id in contract.serveRouteIds)
    && (forall id :: id in profile.smashRoutes ==> id in RouteIds(contract.smashRoutes))
  }

  ghost predicate AdaptersHold(contract: AppContract, profile: Profile) {
    var ingress := ActiveIngress(profile.serveAdapters, IndexIngress(contract.ingressAdapters));
    var egress := ActiveEgress(profile.smashAdapters, IndexEgress(contract.egressAdapters));
    && (forall a :: a in ingress ==> IngressHolds(a))
    && (forall a :: a in egress ==> EgressHolds(contract.transports, a))
    && (forall name :: name in TransportRefs(egress) && name in contract.transports ==>
          TransportHolds(contract.transports[name]))
  }

  ghost predicate OutputsHold(contract: AppContract, profile: Profile) {
    var routes := ActiveRoutes(contract.smashRoutes, profile.smashRoutes);
    && (forall r :: r in routes ==> RouteHolds(r, profile.smashAdapters, IndexEgress(contract.egressAdapters).Keys))
    && OutputPolicyHolds(contract.policies, profile, routes)
  }

  ghost predicate ProfileHolds(contract: AppContract, profile: Profile) {
    ReferencesHold(contract, profile) && AdaptersHold(contract, profile) && OutputsHold(contract, profile)
  }

  // ----- Each issue list is empty exactly when its predicate holds -----

  lemma {:induction false} ConcatEmpty(a: seq<Issue>, b: seq<Issue>)
    ensures a + b == [] <==> a == [] && b == []
  {}

  lemma {:induction false} NoUnresolved(ids: seq<string>, known: set<string>, code: Code)
    ensures UnresolvedIds(ids, known, code) == [] <==> forall id :: id in ids ==> id in known
  {
    if ids != [] {
      NoUnresolved(ids[1..], known, code);
      assert ids == [ids[0]] + ids[1..];
    }
  }

  lemma {:induction false} NoUnknownKeys(
    kind: string, id: string, driver: string, settings: seq<Setting>, allowed: seq<string>)
    ensures UnknownKeyIssues(kind, id, driver, settings, allowed) == [] <==>
            forall s :: s in settings ==> s.key in allowed
  {
    if settings != [] {
      NoUnknownKeys(kind, id, driver, settings[1..], allowed);
      assert settings == [settings[0]] + settings[1..];
    }
  }

  lemma {:induction false} NoMissingKeys(
    kind: string, id: string, driver: string, settings: seq<Setting>, required: seq<string>)
    ensures RequiredKeyIssues(kind, id, driver, settings, required) == [] <==>
            forall key :: key in required ==> KeyHolds(settings, key)
  {
    if required != [] {
      var rest := RequiredKeyIssues(kind, id, driver, settings, required[1..]);
      NoMissingKeys(kind, id, driver, settings, required[1..]);
      assert required == [required[0]] + required[1..];
      assert RequiredKeyIssues(kind, id, driver, settings, required) == [] <==>
             rest == [] && KeyHolds(settings, required[0]);
    }
  }

  lemma {:induction false} SchemaExact(kind: string, id: string, driver: string, settings: seq<Setting>,
                                       required: seq<string>, optional: seq<string>)
    ensures SchemaIssues(kind, id, driver, settings, required, optional) == [] <==>
            SchemaHolds(settings, required, optional)
  {
    NoUnknownKeys(kind, id, driver, settings, required + optional);
    NoMissingKeys(kind, id, driver, settings, required);
  }

  lemma {:induction false} OneIngressExact(a: Ingress)
    ensures IngressIssues(a) == [] <==> IngressHolds(a)
  {
    SchemaExact("serve", a.id, IngressName(a.driver), a.config, IngressRequired(a.driver), IngressOptional(a.driver));
  }

  lemma {:induction false} IngressExact(adapters: seq<Ingress>)
    ensures AllIngressIssues(adapters) == [] <==> forall a :: a in adapters ==> IngressHolds(a)
  {
    if adapters != [] {
      IngressExact(adapters[1..]);
      OneIngressExact(adapters[0]);
      assert adapters == [adapters[0]] + adapters[1..];
    }
  }

  lemma {:induction false} OneEgressExact(transports: map<string, Transport>, a: Egress)
    ensures EgressIssues(transports, a) == [] <==> EgressHolds(transports, a)
  {
    SchemaExact("smash", a.id, EgressName(a.driver), a.config, EgressRequired(a.driver), ["plugins"]);
  }

  lemma {:induction false} EgressExact(transports: map<string, Transport>, adapters: seq<Egress>)
    ensures AllEgressIssues(transports, adapters) == [] <==> forall a :: a in adapters ==> EgressHolds(transports, a)
  {
    if adapters != [] {
      var head, tail := adapters[0], adapters[1..];
      EgressExact(transports, tail);
      OneEgressExact(transports, head);
      ConcatEmpty(EgressIssues(transports, head), AllEgressIssues(transports, tail));
      assert AllEgressIssues(transports, adapters) == [] <==>
             EgressHolds(transports, head) && AllEgressIssues(transports, tail) == [];
      assert adapters == [head] + tail;
    }
  }

  lemma {:induction false} TransportExact(transports: map<string, Transport>, names: seq<string>)
    ensures AllTransportIssues(transports, names) == [] <==>
            forall name :: name in names && name in transports ==> TransportHolds(transports[name])
  {
    if names != [] {
      TransportExact(transports, names[1..]);
      if names[0] in transports {
        var t := transports[names[0]];
        SchemaExact("transport", names[0], "stdio_jsonrpc", t.config, [], ["command", "args", "env"]);
        SchemaExact("transport", names[0], "http_sse", t.config, ["url", "auth_mode"], []);
      }
      assert names == [names[0]] + names[1..];
    }
  }

  lemma {:induction false} DestinationsExact(
    routeId: string, ds: seq<Destination>, active: seq<string>, known: set<string>)
    ensures DestinationIssues(routeId, ds, active, known) == [] <==>
            forall d :: d in ds ==> d.adapterId in active && d.adapterId in known
  {
    if ds != [] {
      DestinationsExact(routeId, ds[1..], active, known);
      assert ds == [ds[0]] + ds[1..];
    }
  }

  lemma {:induction false} RoutesExact(routes: seq<Route>, active: seq<string>, known: set<string>)
    ensures AllRouteIssues(routes, active, known) == [] <==> forall r :: r in routes ==> RouteHolds(r, active, known)
  {
    if routes != [] {
      RoutesExact(routes[1..], active, known);
      OneRouteExact(routes[0], active, known);
      assert routes == [routes[0]] + routes[1..];
    }
  }

  lemma {:induction false} OneRouteExact(route: Route, active: seq<string>, known: set<string>)
    ensures RouteIssues(route, active, known) == [] <==> RouteHolds(route, active, known)
  {
    DestinationsExact(route.id, route.destinations, active, known);
  }

  lemma {:induction false} ReferencesExact(contract: AppContract, profile: Profile)
    ensures ReferenceIssues(contract, profile) == [] <==> ReferencesHold(contract, profile)
  {
    NoUnresolved(profile.serveAdapters, IndexIngress(contract.ingressAdapters).Keys, MissingServeAdapter);
    NoUnresolved(profile.smashAdapters, IndexEgress(contract.egressAdapters).Keys, MissingSmashAdapter);
    NoUnresolved(profile.serveRoutes, ToSet(contract.serveRouteIds), MissingServeRoute);
    NoUnresolved(profile.smashRoutes, ToSet(RouteIds(contract.smashRoutes)), MissingSmashRoute);
  }

  lemma {:induction false} AdaptersExact(contract: AppContract, profile: Profile)
    ensures AdapterIssues(contract, profile) == [] <==> AdaptersHold(contract, profile)
  {
    var egress := ActiveEgress(profile.smashAdapters, IndexEgress(contract.egressAdapters));
    IngressExact(ActiveIngress(profile.serveAdapters, IndexIngress(contract.ingressAdapters)));
    EgressExact(contract.transports, egress);
    TransportExact(contract.transports, TransportRefs(egress));
  }

  lemma {:induction false} OutputsExact(contract: AppContract, profile: Profile)
    ensures OutputIssues(contract, profile) == [] <==> OutputsHold(contract, profile)
  {
    RoutesExact(ActiveRoutes(contract.smashRoutes, profile.smashRoutes), profile.smashAdapters,
                IndexEgress(contract.egressAdapters).Keys);
  }

  /** A profile validates exactly when it exists, holds, and is labelled unless in debug mode. */
  lemma {:induction false} ValidatedExactly(contract: AppContract, profileName: string)
    ensures Validated(contract, profileName).Ok? <==>
            && profileName in contract.profiles
            && ProfileHolds(contract, contract.profiles[profileName])
            && (contract.policies.validationMode.Debug? || Trim(contract.profiles[profileName].labelText) != "")
  {
    if profileName in contract.profiles {
      var profile := contract.profiles[profileName];
      ReferencesExact(contract, profile);
      AdaptersExact(contract, profile);
      OutputsExact(contract, profile);
    }
  }
}
