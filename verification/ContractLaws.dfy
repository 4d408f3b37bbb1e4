/** Laws of contract validation: debug mode, and the irrelevance of everything a profile does not name. */
module ContractLaws {
  import opened Smash
  import opened Contract
  import opened ContractValidator

  // ----- Debug mode never hides a critical issue -----

  function OnlyCritical(issues: seq<Issue>): seq<Issue> {
    if issues == [] then []
    else (if issues[0].securityCritical then [issues[0]] else []) + OnlyCritical(issues[1..])
  }

  ghost predicate AllCritical(issues: seq<Issue>) {
    forall i :: 0 <= i < |issues| ==> issues[i].securityCritical
  }

  lemma {:induction false} OnlyCriticalConcat(a: seq<Issue>, b: seq<Issue>)
    ensures OnlyCritical(a + b) == OnlyCritical(a) + OnlyCritical(b)
    decreases |a|
  {
    if a == [] {
      assert a + b == b;
    } else {
      assert (a + b)[1..] == a[1..] + b;
      OnlyCriticalConcat(a[1..], b);
    }
  }

  lemma {:induction false} OnlyCriticalKeeps(issues: seq<Issue>)
    requires AllCritical(issues)
    ensures OnlyCritical(issues) == issues
  {
    if issues != [] {
      OnlyCriticalKeeps(issues[1..]);
    }
  }

  lemma {:induction false} UnresolvedCritical(ids: seq<string>, known: set<string>, code: Code)
    ensures AllCritical(UnresolvedIds(ids, known, code))
  {
    if ids != [] { UnresolvedCritical(ids[1..], known, code); }
  }

  lemma {:induction false} SchemaCritical(kind: string, id: string, driver: string, settings: seq<Setting>,
                                          required: seq<string>, optional: seq<string>)
    ensures AllCritical(SchemaIssues(kind, id, driver, settings, required, optional))
  {
    UnknownKeyCritical(kind, id, driver, settings, required + optional);
    RequiredKeyCritical(kind, id, driver, settings, required);
  }

  lemma {:induction false} UnknownKeyCritical(
    kind: string, id: string, driver: string, settings: seq<Setting>, allowed: seq<string>)
    ensures AllCritical(UnknownKeyIssues(kind, id, driver, settings, allowed))
  {
    if settings != [] { UnknownKeyCritical(kind, id, driver, settings[1..], allowed); }
  }

  lemma {:induction false} RequiredKeyCritical(
    kind: string, id: string, driver: string, settings: seq<Setting>, required: seq<string>)
    ensures AllCritical(RequiredKeyIssues(kind, id, driver, settings, required))
  {
    if required != [] { RequiredKeyCritical(kind, id, driver, settings, required[1..]); }
  }

  lemma {:induction false} IngressCritical(adapters: seq<Ingress>)
    ensures AllCritical(AllIngressIssues(adapters))
  {
    if adapters != [] {
      var a := adapters[0];
      IngressCritical(adapters[1..]);
      SchemaCritical("serve", a.id, IngressName(a.driver), a.config,
                     IngressRequired(a.driver), IngressOptional(a.driver));
    }
  }

  lemma {:induction false} EgressCritical(transports: map<string, Transport>, adapters: seq<Egress>)
    ensures AllCritical(AllEgressIssues(transports, adapters))
  {
    if adapters != [] {
      var a := adapters[0];
      EgressCritical(transports, adapters[1..]);
      SchemaCritical("smash", a.id, EgressName(a.driver), a.config, EgressRequired(a.driver), ["plugins"]);
    }
  }

  lemma {:induction false} TransportCritical(transports: map<string, Transport>, names: seq<string>)
    ensures AllCritical(AllTransportIssues(transports, names))
  {
    if names != [] {
      TransportCritical(transports, names[1..]);
      if names[0] in transports {
        var t := transports[names[0]];
        SchemaCritical("transport", names[0], "stdio_jsonrpc", t.config, [], ["command", "args", "env"]);
        SchemaCritical("transport", names[0], "http_sse", t.config, ["url", "auth_mode"], []);
      }
    }
  }

  lemma {:induction false} RouteCritical(routes: seq<Route>, active: seq<string>, known: set<string>)
    ensures AllCritical(AllRouteIssues(routes, active, known))
  {
    if routes != [] {
      RouteCritical(routes[1..], active, known);
      DestinationCritical(routes[0].id, routes[0].destinations, active, known);
    }
  }

  lemma {:induction false} DestinationCritical(
    routeId: string, ds: seq<Destination>, active: seq<string>, known: set<string>)
    ensures AllCritical(DestinationIssues(routeId, ds, active, known))
  {
    if ds != [] { DestinationCritical(routeId, ds[1..], active, known); }
  }

  function InMode(contract: AppContract, mode: ValidationMode): AppContract {
    contract.(policies := contract.policies.(validationMode := mode))
  }

  lemma {:induction false} StructureCritical(contract: AppContract, profile: Profile)
    ensures AllCritical(StructuralIssues(contract, profile))
  {
    ReferencesCritical(contract, profile);
    AdaptersCritical(contract, profile);
    OutputsCritical(contract, profile);
    ConcatCritical(ReferenceIssues(contract, profile), AdapterIssues(contract, profile));
    ConcatCritical(ReferenceIssues(contract, profile) + AdapterIssues(contract, profile),
                   OutputIssues(contract, profile));
  }

  lemma {:induction false} ConcatCritical(a: seq<Issue>, b: seq<Issue>)
    requires AllCritical(a) && AllCritical(b)
    ensures AllCritical(a + b)
  {}

  /** The validation mode touches nothing but the label check. */
  lemma {:induction false} StructureIgnoresMode(contract: AppContract, profile: Profile, mode: ValidationMode)
    ensures StructuralIssues(InMode(contract, mode), profile) == StructuralIssues(contract, profile)
  {
    var other := InMode(contract, mode);
    assert ReferenceIssues(other, profile) == ReferenceIssues(contract, profile);
    assert AdapterIssues(other, profile) == AdapterIssues(contract, profile);
    assert OutputIssues(other, profile) == OutputIssues(contract, profile);
  }

  lemma {:induction false} OutputsCritical(contract: AppContract, profile: Profile)
    ensures AllCritical(OutputIssues(contract, profile))
  {
    var routes := ActiveRoutes(contract.smashRoutes, profile.smashRoutes);
    RouteCritical(routes, profile.smashAdapters, IndexEgress(contract.egressAdapters).Keys);
  }

  lemma {:induction false} ReferencesCritical(contract: AppContract, profile: Profile)
    ensures AllCritical(ReferenceIssues(contract, profile))
  {
    UnresolvedCritical(profile.serveAdapters, IndexIngress(contract.ingressAdapters).Keys, MissingServeAdapter);
    UnresolvedCritical(profile.smashAdapters, IndexEgress(contract.egressAdapters).Keys, MissingSmashAdapter);
    UnresolvedCritical(profile.serveRoutes, ToSet(contract.serveRouteIds), MissingServeRoute);
    UnresolvedCritical(profile.smashRoutes, ToSet(RouteIds(contract.smashRoutes)), MissingSmashRoute);
  }

  lemma {:induction false} AdaptersCritical(contract: AppContract, profile: Profile)
    ensures AllCritical(AdapterIssues(contract, profile))
  {
    var activeEgress := ActiveEgress(profile.smashAdapters, IndexEgress(contract.egressAdapters));
    IngressCritical(ActiveIngress(profile.serveAdapters, IndexIngress(contract.ingressAdapters)));
    EgressCritical(contract.transports, activeEgress);
    TransportCritical(contract.transports, TransportRefs(activeEgress));
  }

  /** Debug mode reports exactly the critical part of what strict mode reports, in the same order. */
  lemma {:induction false} DebugKeepsCritical(contract: AppContract, profileName: string)
    ensures Issues(InMode(contract, Debug), profileName) ==
            OnlyCritical(Issues(InMode(contract, Strict), profileName))
  {
    if profileName in contract.profiles {
      var profile := contract.profiles[profileName];
      var body := StructuralIssues(contract, profile);
      StructureIgnoresMode(contract, profile, Debug);
      StructureIgnoresMode(contract, profile, Strict);
      StructureCritical(contract, profile);
      OnlyCriticalKeeps(body);
      OnlyCriticalConcat(body, LabelIssues(Strict, profile));
    } else {
      OnlyCriticalKeeps([Critical(MissingProfile, [profileName])]);
    }
  }

  /** So a contract that fails strict validation on a critical issue fails in debug mode as well. */
  lemma {:induction false} DebugNeverAdmitsCritical(contract: AppContract, profileName: string, i: nat)
    requires var strict := Issues(InMode(contract, Strict), profileName);
             i < |strict| && strict[i].securityCritical
    ensures Validated(InMode(contract, Debug), profileName).Err?
  {
    DebugKeepsCritical(contract, profileName);
    CriticalSurvives(Issues(InMode(contract, Strict), profileName), i);
  }

  lemma {:induction false} CriticalSurvives(issues: seq<Issue>, i: nat)
    requires i < |issues| && issues[i].securityCritical
    ensures issues[i] in OnlyCritical(issues)
  {
    if i > 0 {
      CriticalSurvives(issues[1..], i - 1);
    }
  }

  // ----- What a profile does not name does not matter -----

  /** The adapters a profile names, in the contract's order. */
  function NamedEgress(adapters: seq<Egress>, ids: seq<string>): seq<Egress> {
    if adapters == [] then []
    else
      var last := adapters[|adapters| - 1];
      NamedEgress(adapters[..|adapters| - 1], ids) + if last.id in ids then [last] else []
  }

  function NamedIngress(adapters: seq<Ingress>, ids: seq<string>): seq<Ingress> {
    if adapters == [] then []
    else
      var last := adapters[|adapters| - 1];
      NamedIngress(adapters[..|adapters| - 1], ids) + if last.id in ids then [last] else []
  }

  ghost predicate AgreeOn<T(!new)>(a: map<string, T>, b: map<string, T>, ids: seq<string>) {
    forall id :: id in ids ==> (id in a <==> id in b) && (id in a ==> a[id] == b[id])
  }

  /** Looking a named adapter up sees only the named adapters. */
  lemma {:induction false} IndexSeesNamedEgress(adapters: seq<Egress>, ids: seq<string>)
    ensures AgreeOn(IndexEgress(adapters), IndexEgress(NamedEgress(adapters, ids)), ids)
  {
    if adapters != [] {
      var n := |adapters| - 1;
      IndexSeesNamedEgress(adapters[..n], ids);
      var named := NamedEgress(adapters, ids);
      if adapters[n].id in ids {
        assert named[..|named| - 1] == NamedEgress(adapters[..n], ids);
      } else {
        assert named == NamedEgress(adapters[..n], ids);
      }
    }
  }

  lemma {:induction false} IndexSeesNamedIngress(adapters: seq<Ingress>, ids: seq<string>)
    ensures AgreeOn(IndexIngress(adapters), IndexIngress(NamedIngress(adapters, ids)), ids)
  {
    if adapters != [] {
      var n := |adapters| - 1;
      IndexSeesNamedIngress(adapters[..n], ids);
      var named := NamedIngress(adapters, ids);
      if adapters[n].id in ids {
        assert named[..|named| - 1] == NamedIngress(adapters[..n], ids);
      } else {
        assert named == NamedIngress(adapters[..n], ids);
      }
    }
  }

  lemma {:induction false} UnresolvedAgree(ids: seq<string>, a: set<string>, b: set<string>, code: Code)
    requires forall id :: id in ids ==> (id in a <==> id in b)
    ensures UnresolvedIds(ids, a, code) == UnresolvedIds(ids, b, code)
  {
    if ids != [] { UnresolvedAgree(ids[1..], a, b, code); }
  }

  lemma {:induction false} ActiveEgressAgree(ids: seq<string>, a: map<string, Egress>, b: map<string, Egress>)
    requires AgreeOn(a, b, ids)
    ensures ActiveEgress(ids, a) == ActiveEgress(ids, b)
  {
    if ids != [] { ActiveEgressAgree(ids[1..], a, b); }
  }

  lemma {:induction false} ActiveIngressAgree(ids: seq<string>, a: map<string, Ingress>, b: map<string, Ingress>)
    requires AgreeOn(a, b, ids)
    ensures ActiveIngress(ids, a) == ActiveIngress(ids, b)
  {
    if ids != [] { ActiveIngressAgree(ids[1..], a, b); }
  }

  /** A named route exists exactly when it is active. */
  lemma {:induction false} RouteIdActive(routes: seq<Route>, ids: seq<string>, id: string)
    requires id in ids
    ensures id in RouteIds(routes) <==> id in RouteIds(ActiveRoutes(routes, ids))
  {
    if routes != [] {
      var active := ActiveRoutes(routes, ids);
      RouteIdActive(routes[1..], ids, id);
      assert RouteIds(routes) == [routes[0].id] + RouteIds(routes[1..]);
      if routes[0].id in ids {
        assert RouteIds(active) == [routes[0].id] + RouteIds(ActiveRoutes(routes[1..], ids));
      } else {
        assert active == ActiveRoutes(routes[1..], ids);
      }
    }
  }

  lemma {:induction false} TransportRefsCovers(adapters: seq<Egress>, i: nat)
    requires i < |adapters| && TransportRef(adapters[i]).Some?
    ensures TransportRef(adapters[i]).value in TransportRefs(adapters)
    decreases |adapters|
  {
    var n := |adapters| - 1;
    if i < n {
      TransportRefsCovers(adapters[..n], i);
    }
  }

  lemma {:induction false} EgressIssuesAgree(
    a: map<string, Transport>, b: map<string, Transport>, adapters: seq<Egress>)
    requires forall i :: 0 <= i < |adapters| && TransportRef(adapters[i]).Some? ==>
               (TransportRef(adapters[i]).value in a <==> TransportRef(adapters[i]).value in b)
    ensures AllEgressIssues(a, adapters) == AllEgressIssues(b, adapters)
  {
    if adapters != [] {
      assert EgressIssues(a, adapters[0]) == EgressIssues(b, adapters[0]);
      EgressIssuesAgree(a, b, adapters[1..]);
    }
  }

  lemma {:induction false} TransportIssuesAgree(
    a: map<string, Transport>, b: map<string, Transport>, names: seq<string>)
    requires AgreeOn(a, b, names)
    ensures AllTransportIssues(a, names) == AllTransportIssues(b, names)
  {
    if names != [] { TransportIssuesAgree(a, b, names[1..]); }
  }

  lemma {:induction false} RouteIssuesAgree(routes: seq<Route>, active: seq<string>, a: set<string>, b: set<string>)
    requires forall id :: id in active ==> (id in a <==> id in b)
    ensures AllRouteIssues(routes, active, a) == AllRouteIssues(routes, active, b)
  {
    if routes != [] {
      RouteIssuesAgree(routes[1..], active, a, b);
      DestinationIssuesAgree(routes[0].id, routes[0].destinations, active, a, b);
    }
  }

  lemma {:induction false} DestinationIssuesAgree(
    routeId: string, ds: seq<Destination>, active: seq<string>, a: set<string>, b: set<string>)
    requires forall id :: id in active ==> (id in a <==> id in b)
    ensures DestinationIssues(routeId, ds, active, a) == DestinationIssues(routeId, ds, active, b)
  {
    if ds != [] { DestinationIssuesAgree(routeId, ds[1..], active, a, b); }
  }

  /** The transports the profile's adapters refer to. */
  function ReferredTransports(contract: AppContract, profile: Profile): seq<string> {
    TransportRefs(ActiveEgress(profile.smashAdapters, IndexEgress(contract.egressAdapters)))
  }

  /** Two contracts that a profile cannot tell apart. */
  ghost predicate SameForProfile(a: AppContract, b: AppContract, profile: Profile) {
    && a.policies == b.policies
    && NamedIngress(a.ingressAdapters, profile.serveAdapters) == NamedIngress(b.ingressAdapters, profile.serveAdapters)
    && NamedEgress(a.egressAdapters, profile.smashAdapters) == NamedEgress(b.egressAdapters, profile.smashAdapters)
    && (forall id :: id in profile.serveRoutes ==> (id in a.serveRouteIds <==> id in b.serveRouteIds))
    && ActiveRoutes(a.smashRoutes, profile.smashRoutes) == ActiveRoutes(b.smashRoutes, profile.smashRoutes)
    && AgreeOn(a.transports, b.transports, ReferredTransports(a, profile))
  }

  lemma {:induction false} IndicesAgree(a: AppContract, b: AppContract, profile: Profile)
    requires SameForProfile(a, b, profile)
    ensures AgreeOn(IndexIngress(a.ingressAdapters), IndexIngress(b.ingressAdapters), profile.serveAdapters)
    ensures AgreeOn(IndexEgress(a.egressAdapters), IndexEgress(b.egressAdapters), profile.smashAdapters)
  {
    IndexSeesNamedIngress(a.ingressAdapters, profile.serveAdapters);
    IndexSeesNamedIngress(b.ingressAdapters, profile.serveAdapters);
    IndexSeesNamedEgress(a.egressAdapters, profile.smashAdapters);
    IndexSeesNamedEgress(b.egressAdapters, profile.smashAdapters);
  }

  lemma {:induction false} ReferencesAgree(a: AppContract, b: AppContract, profile: Profile)
    requires SameForProfile(a, b, profile)
    ensures ReferenceIssues(a, profile) == ReferenceIssues(b, profile)
  {
    IndicesAgree(a, b, profile);
    UnresolvedAgree(profile.serveAdapters, IndexIngress(a.ingressAdapters).Keys,
                    IndexIngress(b.ingressAdapters).Keys, MissingServeAdapter);
    UnresolvedAgree(profile.smashAdapters, IndexEgress(a.egressAdapters).Keys,
                    IndexEgress(b.egressAdapters).Keys, MissingSmashAdapter);
    UnresolvedAgree(profile.serveRoutes, ToSet(a.serveRouteIds), ToSet(b.serveRouteIds), MissingServeRoute);
    RouteReferencesAgree(a, b, profile);
  }

  lemma {:induction false} RouteReferencesAgree(a: AppContract, b: AppContract, profile: Profile)
    requires ActiveRoutes(a.smashRoutes, profile.smashRoutes) == ActiveRoutes(b.smashRoutes, profile.smashRoutes)
    ensures UnresolvedIds(profile.smashRoutes, ToSet(RouteIds(a.smashRoutes)), MissingSmashRoute) ==
            UnresolvedIds(profile.smashRoutes, ToSet(RouteIds(b.smashRoutes)), MissingSmashRoute)
  {
    forall id | id in profile.smashRoutes
      ensures id in ToSet(RouteIds(a.smashRoutes)) <==> id in ToSet(RouteIds(b.smashRoutes))
    {
      RouteIdActive(a.smashRoutes, profile.smashRoutes, id);
      RouteIdActive(b.smashRoutes, profile.smashRoutes, id);
    }
    UnresolvedAgree(profile.smashRoutes, ToSet(RouteIds(a.smashRoutes)), ToSet(RouteIds(b.smashRoutes)),
                    MissingSmashRoute);
  }

  lemma {:induction false} AdaptersAgree(a: AppContract, b: AppContract, profile: Profile)
    requires SameForProfile(a, b, profile)
    ensures AdapterIssues(a, profile) == AdapterIssues(b, profile)
  {
    IndicesAgree(a, b, profile);
    ActiveIngressAgree(profile.serveAdapters, IndexIngress(a.ingressAdapters), IndexIngress(b.ingressAdapters));
    ActiveEgressAgree(profile.smashAdapters, IndexEgress(a.egressAdapters), IndexEgress(b.egressAdapters));
    var active := ActiveEgress(profile.smashAdapters, IndexEgress(a.egressAdapters));
    forall i | 0 <= i < |active| && TransportRef(active[i]).Some?
      ensures TransportRef(active[i]).value in ReferredTransports(a, profile)
    {
      TransportRefsCovers(active, i);
    }
    EgressIssuesAgree(a.transports, b.transports, active);
    TransportIssuesAgree(a.transports, b.transports, TransportRefs(active));
  }

  lemma {:induction false} OutputsAgree(a: AppContract, b: AppContract, profile: Profile)
    requires SameForProfile(a, b, profile)
    ensures OutputIssues(a, profile) == OutputIssues(b, profile)
  {
    IndicesAgree(a, b, profile);
    RouteIssuesAgree(ActiveRoutes(a.smashRoutes, profile.smashRoutes), profile.smashAdapters,
                     IndexEgress(a.egressAdapters).Keys, IndexEgress(b.egressAdapters).Keys);
  }

  /** Validation gives the same result and the same ordered issues for such contracts. */
  lemma {:induction false} ValidationDependsOnNamed(a: AppContract, b: AppContract, profileName: string)
    requires profileName in a.profiles && profileName in b.profiles
    requires a.profiles[profileName] == b.profiles[profileName]
    requires SameForProfile(a, b, a.profiles[profileName])
    ensures Issues(a, profileName) == Issues(b, profileName)
    ensures Validated(a, profileName) == Validated(b, profileName)
  {
    var profile := a.profiles[profileName];
    ReferencesAgree(a, b, profile);
    AdaptersAgree(a, b, profile);
    OutputsAgree(a, b, profile);
  }

  // ----- Insertions -----

  function Insert<T>(items: seq<T>, i: nat, item: T): seq<T>
    requires i <= |items|
  {
    items[..i] + [item] + items[i..]
  }

  lemma {:induction false} NamedEgressConcat(a: seq<Egress>, b: seq<Egress>, ids: seq<string>)
    ensures NamedEgress(a + b, ids) == NamedEgress(a, ids) + NamedEgress(b, ids)
    decreases |b|
  {
    if b == [] {
      assert a + b == a;
    } else {
      var n := |b| - 1;
      assert (a + b)[..|a| + n] == a + b[..n];
      NamedEgressConcat(a, b[..n], ids);
    }
  }

  lemma {:induction false} NamedIngressConcat(a: seq<Ingress>, b: seq<Ingress>, ids: seq<string>)
    ensures NamedIngress(a + b, ids) == NamedIngress(a, ids) + NamedIngress(b, ids)
    decreases |b|
  {
    if b == [] {
      assert a + b == a;
    } else {
      var n := |b| - 1;
      assert (a + b)[..|a| + n] == a + b[..n];
      NamedIngressConcat(a, b[..n], ids);
    }
  }

  lemma {:induction false} ActiveRoutesConcat(a: seq<Route>, b: seq<Route>, ids: seq<string>)
    ensures ActiveRoutes(a + b, ids) == ActiveRoutes(a, ids) + ActiveRoutes(b, ids)
    decreases |a|
  {
    if a == [] {
      assert a + b == b;
    } else {
      assert (a + b)[1..] == a[1..] + b;
      ActiveRoutesConcat(a[1..], b, ids);
    }
  }

  lemma {:induction false} InsertEgressUnnoticed(adapters: seq<Egress>, i: nat, extra: Egress, ids: seq<string>)
    requires i <= |adapters| && extra.id !in ids
    ensures NamedEgress(Insert(adapters, i, extra), ids) == NamedEgress(adapters, ids)
  {
    NamedEgressConcat(adapters[..i], [extra], ids);
    NamedEgressConcat(adapters[..i] + [extra], adapters[i..], ids);
    NamedEgressConcat(adapters[..i], adapters[i..], ids);
    assert adapters[..i] + adapters[i..] == adapters;
    assert NamedEgress([extra], ids) == [] by { assert [extra][..0] == []; }
  }

  lemma {:induction false} InsertIngressUnnoticed(adapters: seq<Ingress>, i: nat, extra: Ingress, ids: seq<string>)
    requires i <= |adapters| && extra.id !in ids
    ensures NamedIngress(Insert(adapters, i, extra), ids) == NamedIngress(adapters, ids)
  {
    NamedIngressConcat(adapters[..i], [extra], ids);
    NamedIngressConcat(adapters[..i] + [extra], adapters[i..], ids);
    NamedIngressConcat(adapters[..i], adapters[i..], ids);
    assert adapters[..i] + adapters[i..] == adapters;
    assert NamedIngress([extra], ids) == [] by { assert [extra][..0] == []; }
  }

  lemma {:induction false} InsertRouteUnnoticed(routes: seq<Route>, i: nat, extra: Route, ids: seq<string>)
    requires i <= |routes| && extra.id !in ids
    ensures ActiveRoutes(Insert(routes, i, extra), ids) == ActiveRoutes(routes, ids)
  {
    ActiveRoutesConcat(routes[..i], [extra], ids);
    ActiveRoutesConcat(routes[..i] + [extra], routes[i..], ids);
    ActiveRoutesConcat(routes[..i], routes[i..], ids);
    assert routes[..i] + routes[i..] == routes;
    assert ActiveRoutes([extra], ids) == [] by { assert [extra][1..] == []; }
  }

  /** One addition that the profile does not name. */
  datatype Addition =
    | AddIngress(at: nat, ingress: Ingress)
    | AddEgress(at: nat, egress: Egress)
    | AddServeRoute(at: nat, id: string)
    | AddSmashRoute(at: nat, route: Route)
    | AddTransport(name: string, transport: Transport)
    | AddProfile(name: string, profile: Profile)

  ghost predicate Unnamed(contract: AppContract, profileName: string, addition: Addition)
    requires profileName in contract.profiles
  {
    var profile := contract.profiles[profileName];
    match addition
    case AddIngress(at, ingress) => at <= |contract.ingressAdapters| && ingress.id !in profile.serveAdapters
    case AddEgress(at, egress) => at <= |contract.egressAdapters| && egress.id !in profile.smashAdapters
    case AddServeRoute(at, id) => at <= |contract.serveRouteIds| && id !in profile.serveRoutes
    case AddSmashRoute(at, route) => at <= |contract.smashRoutes| && route.id !in profile.smashRoutes
    case AddTransport(name, _) => name !in ReferredTransports(contract, profile)
    case AddProfile(name, _) => name != profileName
  }

  ghost function Added(contract: AppContract, profileName: string, addition: Addition): AppContract
    requires profileName in contract.profiles && Unnamed(contract, profileName, addition)
  {
    match addition
    case AddIngress(at, ingress) => contract.(ingressAdapters := Insert(contract.ingressAdapters, at, ingress))
    case AddEgress(at, egress) => contract.(egressAdapters := Insert(contract.egressAdapters, at, egress))
    case AddServeRoute(at, id) => contract.(serveRouteIds := Insert(contract.serveRouteIds, at, id))
    case AddSmashRoute(at, route) => contract.(smashRoutes := Insert(contract.smashRoutes, at, route))
    case AddTransport(name, transport) => contract.(transports := contract.transports[name := transport])
    case AddProfile(name, profile) => contract.(profiles := contract.profiles[name := profile])
  }

  lemma {:induction false} AdditionUnnoticed(contract: AppContract, profileName: string, addition: Addition)
    requires profileName in contract.profiles && Unnamed(contract, profileName, addition)
    ensures SameForProfile(contract, Added(contract, profileName, addition), contract.profiles[profileName])
  {
    var profile := contract.profiles[profileName];
    match addition {
      case AddIngress(at, ingress) =>
        InsertIngressUnnoticed(contract.ingressAdapters, at, ingress, profile.serveAdapters);
      case AddEgress(at, egress) =>
        InsertEgressUnnoticed(contract.egressAdapters, at, egress, profile.smashAdapters);
      case AddServeRoute(at, id) =>
        assert contract.serveRouteIds == contract.serveRouteIds[..at] + contract.serveRouteIds[at..];
      case AddSmashRoute(at, route) =>
        InsertRouteUnnoticed(contract.smashRoutes, at, route, profile.smashRoutes);
      case AddTransport(_, _) =>
      case AddProfile(_, _) =>
    }
  }

  /** Any number of additions the profile does not name. */
  ghost predicate Grows(contract: AppContract, profileName: string, additions: seq<Addition>, grown: AppContract)
    requires profileName in contract.profiles
    decreases |additions|
  {
    if additions == [] then grown == contract
    else
      && Unnamed(contract, profileName, additions[0])
      && Grows(Added(contract, profileName, additions[0]), profileName, additions[1..], grown)
  }

  /** Inserting unnamed parts anywhere leaves the result and the ordered issue list unchanged. */
  lemma {:induction false} InactivePartsIrrelevant(
    contract: AppContract, profileName: string, additions: seq<Addition>, grown: AppContract)
    requires profileName in contract.profiles && Grows(contract, profileName, additions, grown)
    ensures Issues(grown, profileName) == Issues(contract, profileName)
    ensures Validated(grown, profileName) == Validated(contract, profileName)
    decreases |additions|
  {
    if additions != [] {
      var next := Added(contract, profileName, additions[0]);
      AdditionUnnoticed(contract, profileName, additions[0]);
      ValidationDependsOnNamed(contract, next, profileName);
      InactivePartsIrrelevant(next, profileName, additions[1..], grown);
    }
  }
}
