/** Which issues a contract deserves, said without the lists; the validator reports exactly those. */
module IssueLaws {
  import opened Wrappers
  import opened Text
  import opened Smash
  import opened Contract
  import opened ContractValidator
  import opened ProfileValidity

  // ----- The key tables -----

  ghost predicate Filled(settings: seq<Setting>, key: string) {
    match Lookup(settings, key)
    case None => false
    case Some(StringValue(text)) => Trim(text) != ""
    case Some(ListValue(items)) => items != []
    case Some(TableValue(entries)) => entries != []
    case Some(_) => true
  }

  /** Only known keys, and every required one filled. */
  ghost predicate Keys(settings: seq<Setting>, required: set<string>, optional: set<string>) {
    && (forall s :: s in settings ==> s.key in required || s.key in optional)
    && (forall key :: key in required ==> Filled(settings, key))
  }

  /** The keys of the egress drivers. */
  lemma {:induction false} EgressKeys(transports: map<string, Transport>, a: Egress)
    ensures EgressHolds(transports, a) <==>
            match a.driver
            case OpenclawHttpOutput =>
              Keys(a.config, {"url", "token_env", "timeout_seconds", "max_retries"}, {"plugins"})
            case McpToolOutput =>
              && Keys(a.config, {"tool_name", "transport_ref"}, {"plugins"})
              && exists raw :: Lookup(a.config, "transport_ref") == Some(StringValue(raw)) && Trim(raw) in transports
            case WebsocketClientOutput =>
              Keys(a.config, {"url", "auth_mode", "send_timeout_ms", "retry_policy"}, {"plugins"})
            case WebsocketServerOutput =>
              Keys(a.config, {"bind", "path", "auth_mode", "max_clients", "queue_depth_per_client", "send_timeout_ms"},
                   {"plugins"})
            case KafkaOutput => Keys(a.config, {"topic", "key_mode"}, {"plugins"})
            case UnknownEgress(_) => false
  {
    SameKeys(a.config, EgressRequired(a.driver), ["plugins"]);
    EgressTable(a.driver);
    assert KeySet(["plugins"]) == {"plugins"};
  }

  function KeySet(keys: seq<string>): set<string> { set k | k in keys }

  lemma {:induction false} SameKeys(settings: seq<Setting>, required: seq<string>, optional: seq<string>)
    ensures SchemaHolds(settings, required, optional) <==> Keys(settings, KeySet(required), KeySet(optional))
  {
    assert forall key :: KeyHolds(settings, key) <==> Filled(settings, key);
  }

  lemma {:induction false} EgressTable(driver: EgressDriver)
    ensures KeySet(EgressRequired(driver)) ==
            match driver
            case OpenclawHttpOutput => {"url", "token_env", "timeout_seconds", "max_retries"}
            case McpToolOutput => {"tool_name", "transport_ref"}
            case WebsocketClientOutput => {"url", "auth_mode", "send_timeout_ms", "retry_policy"}
            case WebsocketServerOutput =>
              {"bind", "path", "auth_mode", "max_clients", "queue_depth_per_client", "send_timeout_ms"}
            case KafkaOutput => {"topic", "key_mode"}
            case UnknownEgress(_) => {}
  {}

  /** The keys of the ingress drivers. */
  lemma {:induction false} IngressKeys(a: Ingress)
    ensures IngressHolds(a) <==>
            match a.driver
            case HttpWebhookIngress => Keys(a.config, {"bind"}, {"path_template", "plugins"})
            case WebsocketIngress => Keys(a.config, {"auth_mode"}, {"path_template", "plugins"})
            case McpIngestExposed =>
              Keys(a.config, {"transport_driver", "bind", "auth_mode", "max_payload_bytes"},
                   {"tool_name", "path", "token_env", "plugins"})
            case KafkaIngress => Keys(a.config, {"topics", "group_id"}, {"brokers", "plugins"})
            case UnknownIngress(_) => false
  {
    SameKeys(a.config, IngressRequired(a.driver), IngressOptional(a.driver));
    IngressTable(a.driver);
  }

  lemma {:induction false} IngressTable(driver: IngressDriver)
    ensures KeySet(IngressRequired(driver)) ==
            match driver
            case HttpWebhookIngress => {"bind"}
            case WebsocketIngress => {"auth_mode"}
            case McpIngestExposed => {"transport_driver", "bind", "auth_mode", "max_payload_bytes"}
            case KafkaIngress => {"topics", "group_id"}
            case UnknownIngress(_) => {}
    ensures KeySet(IngressOptional(driver)) ==
            match driver
            case HttpWebhookIngress => {"path_template", "plugins"}
            case WebsocketIngress => {"path_template", "plugins"}
            case McpIngestExposed => {"tool_name", "path", "token_env", "plugins"}
            case KafkaIngress => {"brokers", "plugins"}
            case UnknownIngress(_) => {}
  {}

  // ----- The index -----

  /** A later adapter with the same id wins. */
  lemma {:induction false} IndexIsLast(adapters: seq<Egress>, i: nat)
    requires i < |adapters| && forall j :: i < j < |adapters| ==> adapters[j].id != adapters[i].id
    ensures adapters[i].id in IndexEgress(adapters) && IndexEgress(adapters)[adapters[i].id] == adapters[i]
  {
    var n := |adapters| - 1;
    if i < n {
      IndexIsLast(adapters[..n], i);
    }
  }

  // ----- What each list holds -----

  lemma {:induction false} InUnresolved(ids: seq<string>, known: set<string>, code: Code, issue: Issue)
    ensures issue in UnresolvedIds(ids, known, code) <==>
            exists id :: id in ids && id !in known && issue == Issue(code, [id], true)
  {
    if ids != [] {
      InUnresolved(ids[1..], known, code, issue);
      assert ids == [ids[0]] + ids[1..];
    }
  }

  /** A table deserves the issue: an unknown key, or a required one that is missing or empty. */
  ghost predicate SchemaDeserves(kind: string, id: string, driver: string, settings: seq<Setting>,
                                 required: seq<string>, optional: seq<string>, issue: Issue)
  {
    || (exists s :: s in settings && s.key !in required + optional
                    && issue == Issue(UnknownAdapterKey, [kind, id, driver, s.key], true))
    || (exists key :: key in required && Lookup(settings, key) == None
                      && issue == Issue(MissingRequiredKey, [kind, id, driver, key], true))
    || (exists key :: key in required && Lookup(settings, key).Some? && !Filled(settings, key)
                      && issue == Issue(EmptyRequiredValue, [kind, id, driver, key], true))
  }

  lemma {:induction false} InUnknownKeys(
    kind: string, id: string, driver: string, settings: seq<Setting>, allowed: seq<string>, issue: Issue)
    ensures issue in UnknownKeyIssues(kind, id, driver, settings, allowed) <==>
            exists s :: s in settings && s.key !in allowed
                        && issue == Issue(UnknownAdapterKey, [kind, id, driver, s.key], true)
  {
    if settings != [] {
      InUnknownKeys(kind, id, driver, settings[1..], allowed, issue);
      assert settings == [settings[0]] + settings[1..];
    }
  }

  ghost predicate KeyDeserves(
    kind: string, id: string, driver: string, settings: seq<Setting>, key: string, issue: Issue)
  {
    || (Lookup(settings, key) == None && issue == Issue(MissingRequiredKey, [kind, id, driver, key], true))
    || (Lookup(settings, key).Some? && !Filled(settings, key)
        && issue == Issue(EmptyRequiredValue, [kind, id, driver, key], true))
  }

  lemma {:induction false} InRequiredKeys(
    kind: string, id: string, driver: string, settings: seq<Setting>, required: seq<string>, issue: Issue)
    ensures issue in RequiredKeyIssues(kind, id, driver, settings, required) <==>
            exists key :: key in required && KeyDeserves(kind, id, driver, settings, key, issue)
  {
    if required != [] {
      InRequiredKeys(kind, id, driver, settings, required[1..], issue);
      assert required == [required[0]] + required[1..];
      OneRequiredKey(kind, id, driver, settings, required, issue);
    }
  }

  lemma {:induction false} OneRequiredKey(
    kind: string, id: string, driver: string, settings: seq<Setting>, required: seq<string>, issue: Issue)
    requires required != []
    ensures issue in RequiredKeyIssues(kind, id, driver, settings, required) <==>
            || KeyDeserves(kind, id, driver, settings, required[0], issue)
            || issue in RequiredKeyIssues(kind, id, driver, settings, required[1..])
  {}

  lemma {:induction false} InSchema(kind: string, id: string, driver: string, settings: seq<Setting>,
                                    required: seq<string>, optional: seq<string>, issue: Issue)
    ensures issue in SchemaIssues(kind, id, driver, settings, required, optional) <==>
            SchemaDeserves(kind, id, driver, settings, required, optional, issue)
  {
    InUnknownKeys(kind, id, driver, settings, required + optional, issue);
    InRequiredKeys(kind, id, driver, settings, required, issue);
  }

  /** An ingress adapter deserves the issue. */
  ghost predicate IngressDeserves(a: Ingress, issue: Issue) {
    if a.driver.UnknownIngress? then issue == Issue(UnsupportedIngressDriver, [a.id, a.driver.name], true)
    else SchemaDeserves("serve", a.id, IngressName(a.driver), a.config,
                        IngressRequired(a.driver), IngressOptional(a.driver), issue)
  }

  lemma {:induction false} InIngress(adapters: seq<Ingress>, issue: Issue)
    ensures issue in AllIngressIssues(adapters) <==> exists a :: a in adapters && IngressDeserves(a, issue)
  {
    if adapters != [] {
      var head, tail := adapters[0], adapters[1..];
      InIngress(tail, issue);
      OneIngress(head, issue);
      InIngressCons(adapters, issue);
      IngressDeservesCons(head, tail, issue);
      assert adapters == [head] + tail;
    }
  }

  lemma {:induction false} InIngressCons(adapters: seq<Ingress>, issue: Issue)
    requires adapters != []
    ensures issue in AllIngressIssues(adapters) <==>
            issue in IngressIssues(adapters[0]) || issue in AllIngressIssues(adapters[1..])
  {}

  lemma {:induction false} OneIngress(a: Ingress, issue: Issue)
    ensures issue in IngressIssues(a) <==> IngressDeserves(a, issue)
  {
    InSchema("serve", a.id, IngressName(a.driver), a.config,
             IngressRequired(a.driver), IngressOptional(a.driver), issue);
  }

  lemma {:induction false} IngressDeservesCons(head: Ingress, tail: seq<Ingress>, issue: Issue)
    ensures (exists a :: a in [head] + tail && IngressDeserves(a, issue)) <==>
            IngressDeserves(head, issue) || exists a :: a in tail && IngressDeserves(a, issue)
  {
    if IngressDeserves(head, issue) {
      assert ([head] + tail)[0] == head;
    }
    if a :| a in tail && IngressDeserves(a, issue) {
      assert a in [head] + tail;
    }
  }

  /** An egress adapter deserves the issue; an MCP adapter also when its transport is not named or not declared. */
  ghost predicate EgressDeserves(transports: map<string, Transport>, a: Egress, issue: Issue) {
    if a.driver.UnknownEgress? then issue == Issue(UnsupportedEgressDriver, [a.id, a.driver.name], true)
    else
      || SchemaDeserves("smash", a.id, EgressName(a.driver), a.config, EgressRequired(a.driver), ["plugins"], issue)
      || (a.driver.McpToolOutput? &&
          match TrimmedText(Lookup(a.config, "transport_ref"))
          case None => issue == Issue(MissingTransportRef, [a.id], true)
          case Some(name) => name !in transports && issue == Issue(MissingTransportRef, [a.id, name], true))
  }

  lemma {:induction false} OneEgress(transports: map<string, Transport>, a: Egress, issue: Issue)
    ensures issue in EgressIssues(transports, a) <==> EgressDeserves(transports, a, issue)
  {
    InSchema("smash", a.id, EgressName(a.driver), a.config, EgressRequired(a.driver), ["plugins"], issue);
  }

  lemma {:induction false} InEgress(transports: map<string, Transport>, adapters: seq<Egress>, issue: Issue)
    ensures issue in AllEgressIssues(transports, adapters) <==>
            exists a :: a in adapters && EgressDeserves(transports, a, issue)
  {
    if adapters != [] {
      var head, tail := adapters[0], adapters[1..];
      InEgress(transports, tail, issue);
      OneEgress(transports, head, issue);
      InEgressCons(transports, adapters, issue);
      EgressDeservesCons(transports, head, tail, issue);
      assert adapters == [head] + tail;
    }
  }

  lemma {:induction false} InEgressCons(transports: map<string, Transport>, adapters: seq<Egress>, issue: Issue)
    requires adapters != []
    ensures issue in AllEgressIssues(transports, adapters) <==>
            issue in EgressIssues(transports, adapters[0]) || issue in AllEgressIssues(transports, adapters[1..])
  {}

  lemma {:induction false} EgressDeservesCons(
    transports: map<string, Transport>, head: Egress, tail: seq<Egress>, issue: Issue)
    ensures (exists a :: a in [head] + tail && EgressDeserves(transports, a, issue)) <==>
            EgressDeserves(transports, head, issue) || exists a :: a in tail && EgressDeserves(transports, a, issue)
  {
    if EgressDeserves(transports, head, issue) {
      assert ([head] + tail)[0] == head;
    }
    if a :| a in tail && EgressDeserves(transports, a, issue) {
      assert a in [head] + tail;
    }
  }

  ghost predicate TransportDeserves(name: string, transport: Transport, issue: Issue) {
    match transport.driver
    case StdioJsonrpc =>
      SchemaDeserves("transport", name, "stdio_jsonrpc", transport.config, [], ["command", "args", "env"], issue)
    case HttpSse => SchemaDeserves("transport", name, "http_sse", transport.config, ["url", "auth_mode"], [], issue)
    case UnknownTransport(driver) => issue == Issue(UnsupportedTransportDriver, [name, driver], true)
  }

  lemma {:induction false} InTransports(transports: map<string, Transport>, names: seq<string>, issue: Issue)
    ensures issue in AllTransportIssues(transports, names) <==>
            exists name :: name in names && name in transports && TransportDeserves(name, transports[name], issue)
  {
    if names != [] {
      var name := names[0];
      InTransports(transports, names[1..], issue);
      if name in transports {
        var c := transports[name].config;
        InSchema("transport", name, "stdio_jsonrpc", c, [], ["command", "args", "env"], issue);
        InSchema("transport", name, "http_sse", c, ["url", "auth_mode"], [], issue);
        assert issue in TransportIssues(transports, name) <==> TransportDeserves(name, transports[name], issue);
      }
      assert names == [name] + names[1..];
    }
  }

  /** A route deserves the issue: no destinations, or one that is inactive or not declared. */
  ghost predicate RouteDeserves(route: Route, active: seq<string>, known: set<string>, issue: Issue) {
    if route.destinations == [] then issue == Issue(EmptyRouteDestinations, [route.id], true)
    else
      exists d :: d in route.destinations && DestinationDeserves(route.id, d, active, known, issue)
  }

  ghost predicate DestinationDeserves(
    routeId: string, d: Destination, active: seq<string>, known: set<string>, issue: Issue)
  {
    || (d.adapterId !in active && issue == Issue(InactiveDestinationAdapter, [routeId, d.adapterId], true))
    || (d.adapterId in active && d.adapterId !in known
        && issue == Issue(MissingDestinationAdapter, [routeId, d.adapterId], true))
  }

  lemma {:induction false} InDestinations(
    routeId: string, ds: seq<Destination>, active: seq<string>, known: set<string>, issue: Issue)
    ensures issue in DestinationIssues(routeId, ds, active, known) <==>
            exists d :: d in ds && DestinationDeserves(routeId, d, active, known, issue)
  {
    if ds != [] {
      var head, tail := ds[0], ds[1..];
      InDestinations(routeId, tail, active, known, issue);
      assert issue in DestinationIssue(routeId, head, active, known) <==>
             DestinationDeserves(routeId, head, active, known, issue);
      assert ds == [head] + tail && forall d :: d in ds <==> d == head || d in tail;
    }
  }

  lemma {:induction false} InRoutes(routes: seq<Route>, active: seq<string>, known: set<string>, issue: Issue)
    ensures issue in AllRouteIssues(routes, active, known) <==>
            exists r :: r in routes && RouteDeserves(r, active, known, issue)
  {
    if routes != [] {
      var head, tail := routes[0], routes[1..];
      InRoutes(tail, active, known, issue);
      OneRoute(head, active, known, issue);
      InRoutesCons(routes, active, known, issue);
      RouteDeservesCons(head, tail, active, known, issue);
      assert routes == [head] + tail;
    }
  }

  lemma {:induction false} OneRoute(route: Route, active: seq<string>, known: set<string>, issue: Issue)
    ensures issue in RouteIssues(route, active, known) <==> RouteDeserves(route, active, known, issue)
  {
    InDestinations(route.id, route.destinations, active, known, issue);
  }

  lemma {:induction false} InRoutesCons(routes: seq<Route>, active: seq<string>, known: set<string>, issue: Issue)
    requires routes != []
    ensures issue in AllRouteIssues(routes, active, known) <==>
            issue in RouteIssues(routes[0], active, known) || issue in AllRouteIssues(routes[1..], active, known)
  {}

  lemma {:induction false} RouteDeservesCons(
    head: Route, tail: seq<Route>, active: seq<string>, known: set<string>, issue: Issue)
    ensures (exists r :: r in [head] + tail && RouteDeserves(r, active, known, issue)) <==>
            RouteDeserves(head, active, known, issue) || exists r :: r in tail && RouteDeserves(r, active, known, issue)
  {
    if RouteDeserves(head, active, known, issue) {
      assert ([head] + tail)[0] == head;
    }
    if r :| r in tail && RouteDeserves(r, active, known, issue) {
      assert r in [head] + tail;
    }
  }

  // ----- The whole profile -----

  ghost predicate ReferenceDeserves(contract: AppContract, profile: Profile, issue: Issue) {
    || (exists id :: id in profile.serveAdapters && id !in IndexIngress(contract.ingressAdapters)
                     && issue == Issue(MissingServeAdapter, [id], true))
    || (exists id :: id in profile.smashAdapters && id !in IndexEgress(contract.egressAdapters)
                     && issue == Issue(MissingSmashAdapter, [id], true))
    || (exists id :: id in profile.serveRoutes && id !in contract.serveRouteIds
                     && issue == Issue(MissingServeRoute, [id], true))
    || (exists id :: id in profile.smashRoutes && id !in RouteIds(contract.smashRoutes)
                     && issue == Issue(MissingSmashRoute, [id], true))
  }

  ghost predicate AdapterDeserves(contract: AppContract, profile: Profile, issue: Issue) {
    var egress := ActiveEgress(profile.smashAdapters, IndexEgress(contract.egressAdapters));
    || (exists a :: a in ActiveIngress(profile.serveAdapters, IndexIngress(contract.ingressAdapters))
                    && IngressDeserves(a, issue))
    || (exists a :: a in egress && EgressDeserves(contract.transports, a, issue))
    || (exists name :: name in TransportRefs(egress) && name in contract.transports
                       && TransportDeserves(name, contract.transports[name], issue))
  }

  ghost predicate PolicyDeserves(policies: Policies, profile: Profile, routes: seq<Route>, issue: Issue) {
    !HasActiveDestination(routes, profile.smashAdapters)
    && (|| (!policies.allowNoOutput && issue == Issue(NoSmashOutputs, [], true))
        || (policies.allowNoOutput && policies.noOutputSink == None && issue == Issue(MissingNoOutputSink, [], true))
        || (policies.allowNoOutput && policies.noOutputSink == Some(Dlq) && profile.smashRoutes == []
            && issue == Issue(DlqWithoutRoutes, [], true)))
  }

  ghost predicate OutputDeserves(contract: AppContract, profile: Profile, issue: Issue) {
    var routes := ActiveRoutes(contract.smashRoutes, profile.smashRoutes);
    || (exists r :: r in routes
          && RouteDeserves(r, profile.smashAdapters, IndexEgress(contract.egressAdapters).Keys, issue))
    || PolicyDeserves(contract.policies, profile, routes, issue)
  }

  ghost predicate Deserves(contract: AppContract, profile: Profile, issue: Issue) {
    || ReferenceDeserves(contract, profile, issue)
    || AdapterDeserves(contract, profile, issue)
    || OutputDeserves(contract, profile, issue)
    || (contract.policies.validationMode == Strict && Trim(profile.labelText) == ""
        && issue == Issue(EmptyProfileLabel, [], false))
  }

  lemma {:induction false} InReferences(contract: AppContract, profile: Profile, issue: Issue)
    ensures issue in ReferenceIssues(contract, profile) <==> ReferenceDeserves(contract, profile, issue)
  {
    InUnresolved(profile.serveAdapters, IndexIngress(contract.ingressAdapters).Keys, MissingServeAdapter, issue);
    InUnresolved(profile.smashAdapters, IndexEgress(contract.egressAdapters).Keys, MissingSmashAdapter, issue);
    InUnresolved(profile.serveRoutes, ToSet(contract.serveRouteIds), MissingServeRoute, issue);
    InUnresolved(profile.smashRoutes, ToSet(RouteIds(contract.smashRoutes)), MissingSmashRoute, issue);
  }

  lemma {:induction false} InAdapters(contract: AppContract, profile: Profile, issue: Issue)
    ensures issue in AdapterIssues(contract, profile) <==> AdapterDeserves(contract, profile, issue)
  {
    var egress := ActiveEgress(profile.smashAdapters, IndexEgress(contract.egressAdapters));
    InIngress(ActiveIngress(profile.serveAdapters, IndexIngress(contract.ingressAdapters)), issue);
    InEgress(contract.transports, egress, issue);
    InTransports(contract.transports, TransportRefs(egress), issue);
  }

  lemma {:induction false} InPolicy(policies: Policies, profile: Profile, routes: seq<Route>, issue: Issue)
    ensures issue in NoOutputIssues(policies, profile, routes) <==> PolicyDeserves(policies, profile, routes, issue)
  {}

  lemma {:induction false} InOutputs(contract: AppContract, profile: Profile, issue: Issue)
    ensures issue in OutputIssues(contract, profile) <==> OutputDeserves(contract, profile, issue)
  {
    var routes := ActiveRoutes(contract.smashRoutes, profile.smashRoutes);
    InRoutes(routes, profile.smashAdapters, IndexEgress(contract.egressAdapters).Keys, issue);
    InPolicy(contract.policies, profile, routes, issue);
  }

  /** The validator reports an issue exactly when the profile deserves it. */
  lemma {:induction false} ReportedExactly(contract: AppContract, profileName: string, issue: Issue)
    requires profileName in contract.profiles
    ensures issue in Issues(contract, profileName) <==> Deserves(contract, contract.profiles[profileName], issue)
  {
    var profile := contract.profiles[profileName];
    InReferences(contract, profile, issue);
    InAdapters(contract, profile, issue);
    InOutputs(contract, profile, issue);
  }

  // ----- In which order -----

  /** The part of the validation an issue comes from. */
  function Rank(issue: Issue): nat {
    match issue.code
    case MissingProfile => 0
    case MissingServeAdapter => 0
    case MissingSmashAdapter => 1
    case MissingServeRoute => 2
    case MissingSmashRoute => 3
    case UnsupportedIngressDriver => 4
    case UnsupportedEgressDriver => 5
    case MissingTransportRef => 5
    case UnsupportedTransportDriver => 6
    case EmptyRouteDestinations => 7
    case InactiveDestinationAdapter => 7
    case MissingDestinationAdapter => 7
    case NoSmashOutputs => 8
    case MissingNoOutputSink => 8
    case DlqWithoutRoutes => 8
    case EmptyProfileLabel => 9
    case _ =>
      if issue.details == [] then 0
      else if issue.details[0] == "serve" then 4 else if issue.details[0] == "smash" then 5 else 6
  }

  ghost predicate Between(issues: seq<Issue>, low: nat, high: nat) {
    forall i :: 0 <= i < |issues| ==> low <= Rank(issues[i]) <= high
  }

  ghost predicate Ranked(issues: seq<Issue>) {
    forall i, j :: 0 <= i < j < |issues| ==> Rank(issues[i]) <= Rank(issues[j])
  }

  lemma {:induction false} RankedConcat(a: seq<Issue>, b: seq<Issue>, low: nat, middle: nat, top: nat, high: nat)
    requires Ranked(a) && Ranked(b) && Between(a, low, middle) && Between(b, top, high)
    requires low <= middle <= top <= high
    ensures Ranked(a + b) && Between(a + b, low, high)
  {}

  lemma {:induction false} FlatRanked(issues: seq<Issue>, rank: nat)
    requires Between(issues, rank, rank)
    ensures Ranked(issues)
  {}

  lemma {:induction false} UnresolvedRank(ids: seq<string>, known: set<string>, code: Code, rank: nat)
    requires forall id :: Rank(Issue(code, [id], true)) == rank
    ensures Between(UnresolvedIds(ids, known, code), rank, rank)
  {
    var issues := UnresolvedIds(ids, known, code);
    forall i | 0 <= i < |issues|
      ensures Rank(issues[i]) == rank
    {
      InUnresolved(ids, known, code, issues[i]);
      assert issues[i] in issues;
    }
  }

  lemma {:induction false} ReferencesRanked(contract: AppContract, profile: Profile)
    ensures Ranked(ReferenceIssues(contract, profile)) && Between(ReferenceIssues(contract, profile), 0, 3)
  {
    var a := UnresolvedIds(profile.serveAdapters, IndexIngress(contract.ingressAdapters).Keys, MissingServeAdapter);
    var b := UnresolvedIds(profile.smashAdapters, IndexEgress(contract.egressAdapters).Keys, MissingSmashAdapter);
    var c := UnresolvedIds(profile.serveRoutes, ToSet(contract.serveRouteIds), MissingServeRoute);
    var d := UnresolvedIds(profile.smashRoutes, ToSet(RouteIds(contract.smashRoutes)), MissingSmashRoute);
    UnresolvedRank(profile.serveAdapters, IndexIngress(contract.ingressAdapters).Keys, MissingServeAdapter, 0);
    UnresolvedRank(profile.smashAdapters, IndexEgress(contract.egressAdapters).Keys, MissingSmashAdapter, 1);
    UnresolvedRank(profile.serveRoutes, ToSet(contract.serveRouteIds), MissingServeRoute, 2);
    UnresolvedRank(profile.smashRoutes, ToSet(RouteIds(contract.smashRoutes)), MissingSmashRoute, 3);
    FlatRanked(a, 0);
    FlatRanked(b, 1);
    FlatRanked(c, 2);
    FlatRanked(d, 3);
    RankedConcat(a, b, 0, 0, 1, 1);
    RankedConcat(a + b, c, 0, 1, 2, 2);
    RankedConcat(a + b + c, d, 0, 2, 3, 3);
  }

  lemma {:induction false} SchemaRank(kind: string, id: string, driver: string, settings: seq<Setting>,
                                      required: seq<string>, optional: seq<string>, issue: Issue)
    requires SchemaDeserves(kind, id, driver, settings, required, optional, issue)
    ensures Rank(issue) == if kind == "serve" then 4 else if kind == "smash" then 5 else 6
  {}

  lemma {:induction false} IngressRank(adapters: seq<Ingress>)
    ensures Between(AllIngressIssues(adapters), 4, 4)
  {
    var issues := AllIngressIssues(adapters);
    forall i | 0 <= i < |issues|
      ensures Rank(issues[i]) == 4
    {
      assert issues[i] in issues;
      InIngress(adapters, issues[i]);
      var a :| a in adapters && IngressDeserves(a, issues[i]);
      OneIngressRank(a, issues[i]);
    }
  }

  lemma {:induction false} OneIngressRank(a: Ingress, issue: Issue)
    requires IngressDeserves(a, issue)
    ensures Rank(issue) == 4
  {
    if !a.driver.UnknownIngress? {
      SchemaRank("serve", a.id, IngressName(a.driver), a.config,
                 IngressRequired(a.driver), IngressOptional(a.driver), issue);
    }
  }

  lemma {:induction false} EgressRank(transports: map<string, Transport>, adapters: seq<Egress>)
    ensures Between(AllEgressIssues(transports, adapters), 5, 5)
  {
    var issues := AllEgressIssues(transports, adapters);
    forall i | 0 <= i < |issues|
      ensures Rank(issues[i]) == 5
    {
      assert issues[i] in issues;
      InEgress(transports, adapters, issues[i]);
      var a :| a in adapters && EgressDeserves(transports, a, issues[i]);
      OneEgressRank(transports, a, issues[i]);
    }
  }

  lemma {:induction false} OneEgressRank(transports: map<string, Transport>, a: Egress, issue: Issue)
    requires EgressDeserves(transports, a, issue)
    ensures Rank(issue) == 5
  {
    if !a.driver.UnknownEgress? && issue.code != MissingTransportRef {
      SchemaRank("smash", a.id, EgressName(a.driver), a.config, EgressRequired(a.driver), ["plugins"], issue);
    }
  }

  lemma {:induction false} TransportRank(transports: map<string, Transport>, names: seq<string>)
    ensures Between(AllTransportIssues(transports, names), 6, 6)
  {
    var issues := AllTransportIssues(transports, names);
    forall i | 0 <= i < |issues|
      ensures Rank(issues[i]) == 6
    {
      assert issues[i] in issues;
      InTransports(transports, names, issues[i]);
      var name :| name in names && name in transports && TransportDeserves(name, transports[name], issues[i]);
      OneTransportRank(name, transports[name], issues[i]);
    }
  }

  lemma {:induction false} OneTransportRank(name: string, t: Transport, issue: Issue)
    requires TransportDeserves(name, t, issue)
    ensures Rank(issue) == 6
  {
    match t.driver {
      case StdioJsonrpc =>
        SchemaRank("transport", name, "stdio_jsonrpc", t.config, [], ["command", "args", "env"], issue);
      case HttpSse =>
        SchemaRank("transport", name, "http_sse", t.config, ["url", "auth_mode"], [], issue);
      case UnknownTransport(_) =>
    }
  }

  lemma {:induction false} AdaptersRanked(contract: AppContract, profile: Profile)
    ensures Ranked(AdapterIssues(contract, profile)) && Between(AdapterIssues(contract, profile), 4, 6)
  {
    var egress := ActiveEgress(profile.smashAdapters, IndexEgress(contract.egressAdapters));
    var ingress := ActiveIngress(profile.serveAdapters, IndexIngress(contract.ingressAdapters));
    var a, b := AllIngressIssues(ingress), AllEgressIssues(contract.transports, egress);
    var c := AllTransportIssues(contract.transports, TransportRefs(egress));
    IngressRank(ingress);
    EgressRank(contract.transports, egress);
    TransportRank(contract.transports, TransportRefs(egress));
    FlatRanked(a, 4);
    FlatRanked(b, 5);
    FlatRanked(c, 6);
    RankedConcat(a, b, 4, 4, 5, 5);
    RankedConcat(a + b, c, 4, 5, 6, 6);
  }

  lemma {:induction false} RouteRank(routes: seq<Route>, active: seq<string>, known: set<string>)
    ensures Between(AllRouteIssues(routes, active, known), 7, 7)
  {
    var issues := AllRouteIssues(routes, active, known);
    forall i | 0 <= i < |issues|
      ensures Rank(issues[i]) == 7
    {
      assert issues[i] in issues;
      InRoutes(routes, active, known, issues[i]);
      var r :| r in routes && RouteDeserves(r, active, known, issues[i]);
      OneRouteRank(r, active, known, issues[i]);
    }
  }

  lemma {:induction false} OneRouteRank(route: Route, active: seq<string>, known: set<string>, issue: Issue)
    requires RouteDeserves(route, active, known, issue)
    ensures Rank(issue) == 7
  {}

  lemma {:induction false} OutputsRanked(contract: AppContract, profile: Profile)
    ensures Ranked(OutputIssues(contract, profile)) && Between(OutputIssues(contract, profile), 7, 8)
  {
    var routes := ActiveRoutes(contract.smashRoutes, profile.smashRoutes);
    var known := IndexEgress(contract.egressAdapters).Keys;
    var a := AllRouteIssues(routes, profile.smashAdapters, known);
    var b := NoOutputIssues(contract.policies, profile, routes);
    RouteRank(routes, profile.smashAdapters, known);
    FlatRanked(a, 7);
    FlatRanked(b, 8);
    RankedConcat(a, b, 7, 7, 8, 8);
  }

  /** Issues come part by part: references, ingress, egress and transport tables, routes, output policy, label. */
  lemma {:induction false} ReportedInOrder(contract: AppContract, profileName: string)
    ensures Ranked(Issues(contract, profileName))
  {
    if profileName in contract.profiles {
      var profile := contract.profiles[profileName];
      var a, b := ReferenceIssues(contract, profile), AdapterIssues(contract, profile);
      var c, d := OutputIssues(contract, profile), LabelIssues(contract.policies.validationMode, profile);
      ReferencesRanked(contract, profile);
      AdaptersRanked(contract, profile);
      OutputsRanked(contract, profile);
      RankedConcat(a, b, 0, 3, 4, 6);
      RankedConcat(a + b, c, 0, 6, 7, 8);
      RankedConcat(a + b + c, d, 0, 8, 9, 9);
    }
  }
}
