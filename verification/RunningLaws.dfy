/** What a runtime that was started from a contract can rely on while it runs. */
module RunningLaws {
  import opened Wrappers
  import opened Text
  import opened Kafka
  import opened Envelopes
  import opened Smash
  import opened Contract
  import opened ContractValidator
  import opened ProfileValidity
  import opened Projection
  import opened RuntimeConfig
  import opened TopicLaws
  import opened StartupLaws
  import Glob
  import Plugins

  // ----- How starting can fail -----

  /** Errors about one value, as opposed to a broken reference between parts. */
  predicate FieldLevel(error: RuntimeError) {
    error.MessageLimitTooSmall? || error.EmptyDlqTopic? || error.EmptyAdapterId? || error.BadField?
    || error.BadPlugin? || error.EmptyRouteId?
  }

  lemma {:induction false} AdapterErrorIsLocal(
    adapters: seq<AdapterEnv>, seen: set<string>, check: AdapterEnv -> Option<RuntimeError>)
    requires NoClash(EnvIds(adapters), seen)
    requires forall a :: a in adapters && check(a).Some? ==> FieldLevel(check(a).value)
    ensures var error := FirstAdapterError(adapters, seen, check); error.Some? ==> FieldLevel(error.value)
  {
    if adapters != [] {
      var head, tail := adapters[0], adapters[1..];
      assert head in adapters && forall a :: a in tail ==> a in adapters;
      assert EnvIds(adapters) == [head.id] + EnvIds(tail);
      NoClashCons(head.id, EnvIds(tail), seen);
      AdapterErrorIsLocal(tail, seen + {head.id}, check);
    }
  }

  lemma {:induction false} RouteErrorIsLocal(routes: seq<Route>, seen: set<string>, known: set<string>)
    requires NoClash(RouteIds(routes), seen)
    requires forall r :: r in routes ==> RouteClosed(r, known)
    ensures var error := RoutesError(routes, seen, known); error.Some? ==> FieldLevel(error.value)
  {
    if routes != [] {
      var head, tail := routes[0], routes[1..];
      assert head in routes && forall r :: r in tail ==> r in routes;
      assert RouteIds(routes) == [head.id] + RouteIds(tail);
      NoClashCons(head.id, RouteIds(tail), seen);
      DestinationsKnown(head.id, head.destinations, known);
      RouteErrorIsLocal(tail, seen + {head.id}, known);
    }
  }

  lemma {:induction false} FieldErrorIsLocal(env: AdapterEnv, transports: seq<TransportEnv>)
    requires env.target.Mcp? ==> Offers(transports, env.target.transportRef)
    ensures var error := FieldError(env, transports); error.Some? ==> FieldLevel(error.value)
  {
    if env.target.Mcp? {
      var t :| t in transports && t.name == env.target.transportRef;
    }
  }

  lemma {:induction false} AdapterLoopFailsLocally(contract: AppContract, profile: Profile, active: Active)
    requires Projects(contract, profile, active) && DistinctlyNamed(contract, profile)
    ensures var error := AdaptersError(active.adapters, active.transports); error.Some? ==> FieldLevel(error.value)
  {
    AdapterIdsProjected(contract.egressAdapters, profile.smashAdapters);
    var check := a => FieldError(a, active.transports);
    forall a | a in active.adapters && check(a).Some?
      ensures FieldLevel(check(a).value)
    {
      var i :| 0 <= i < |active.adapters| && active.adapters[i] == a;
      if a.target.Mcp? {
        TransportsProjected(contract.transports, active.adapters, i);
      }
      FieldErrorIsLocal(a, active.transports);
    }
    AdapterErrorIsLocal(active.adapters, {}, check);
  }

  lemma {:induction false} RouteLoopFailsLocally(contract: AppContract, profile: Profile, active: Active)
    requires OutputsHold(contract, profile) && Projects(contract, profile, active)
    requires DistinctlyNamed(contract, profile)
    ensures var error := RoutesError(active.routes, {}, AdapterIds(active.adapters));
            error.Some? ==> FieldLevel(error.value)
  {
    RouteIdsProjected(contract.smashRoutes, profile.smashRoutes);
    RoutesClosed(contract, profile, active);
    RouteErrorIsLocal(active.routes, {}, AdapterIds(active.adapters));
  }

  lemma {:induction false} HoldingProfileFailsLocally(
    contract: AppContract, profile: Profile, active: Active, environment: Environment)
    requires ProfileHolds(contract, profile) && Projects(contract, profile, active) && active.routes != []
    requires DistinctlyNamed(contract, profile) && Closed(active)
    ensures var started := Start(active, environment); started.Err? ==> FieldLevel(started.error)
  {
    ReachesValidation(active, environment);
    AdapterLoopFailsLocally(contract, profile, active);
    RouteLoopFailsLocally(contract, profile, active);
  }

  /** With distinct active ids a start can fail on single values only, never on a reference between parts. */
  lemma {:induction false} FailsOnlyOnFields(
    contract: AppContract, profileName: string, mode: Option<ValidationMode>, force: bool,
    active: Active, environment: Environment)
    requires Project(contract, profileName, mode, force) == Ok(active) && active.routes != []
    requires profileName in contract.profiles && DistinctlyNamed(contract, contract.profiles[profileName])
    ensures var started := Start(active, environment); started.Err? ==> FieldLevel(started.error)
  {
    ProjectionIsValidated(contract, profileName, mode, force, active);
    var profile, checked := contract.profiles[profileName], WithMode(contract, mode);
    assert Projects(checked, profile, active) && DistinctlyNamed(checked, profile);
    ProjectionIsClosed(contract, profileName, mode, force, active);
    HoldingProfileFailsLocally(checked, profile, active, environment);
  }

  /** A contract with an active websocket output that asks for authentication never starts. */
  lemma {:induction false} AuthenticatedWebsocketNeverStarts(
    contract: AppContract, profileName: string, mode: Option<ValidationMode>, force: bool,
    active: Active, environment: Environment, i: nat)
    requires Project(contract, profileName, mode, force) == Ok(active) && active.routes != []
    requires i < |active.adapters|
    requires var target := active.adapters[i].target;
             (target.WebsocketClient? || target.WebsocketServer?) && target.authMode != "none"
    ensures Start(active, environment).Err?
  {
    StartsExactly(contract, profileName, mode, force, active, environment);
    if FieldLevelHolds(active, environment) {
      WebsocketNeedsNone(active, environment, i);
    }
  }

  lemma {:induction false} WebsocketNeedsNone(active: Active, environment: Environment, i: nat)
    requires FieldLevelHolds(active, environment) && i < |active.adapters|
    ensures var target := active.adapters[i].target;
            target.WebsocketClient? || target.WebsocketServer? ==> target.authMode == "none"
  {
    assert Usable(active.adapters[i].target);
  }

  // ----- The missing-adapter branch -----

  lemma {:induction false} BuiltIsChecked(
    handed: Active, given: seq<string>, environment: Environment, legacy: bool, runtime: Runtime)
    requires WithTopics(handed, given, environment, legacy) == Ok(runtime)
    ensures runtime.adapters == handed.adapters && runtime.routes == handed.routes
    ensures RoutesError(runtime.routes, {}, AdapterIds(runtime.adapters)) == None
  {}

  /** A started runtime went through the route checks, and its routes are the contract's or the fallback's. */
  lemma {:induction false} StartedIsChecked(active: Active, environment: Environment, runtime: Runtime)
    requires Start(active, environment) == Ok(runtime)
    ensures RoutesError(runtime.routes, {}, AdapterIds(runtime.adapters)) == None
    ensures runtime.routes ==
            if Handed(active).routes != [] then Handed(active).routes
            else LegacyRoutes(LegacyTopics(TopicsGiven(TopicsVariable(Handed(active), environment))))
  {
    var handed := Handed(active);
    var given := TopicsGiven(TopicsVariable(handed, environment));
    if handed.routes == [] {
      BuiltIsChecked(Fallback(handed, given, environment), given, environment, true, runtime);
    } else {
      BuiltIsChecked(handed, given, environment, false, runtime);
    }
  }

  lemma {:induction false} PluginsKnown(adapters: seq<AdapterEnv>, id: string)
    ensures id in PluginsById(adapters) <==> id in AdapterIds(adapters)
  {
    if adapters != [] {
      var n := |adapters| - 1;
      PluginsKnown(adapters[..n], id);
      assert adapters == adapters[..n] + [adapters[n]];
    }
  }

  /** Whatever is scheduled for whatever message, its adapter exists. */
  lemma {:induction false} MissingAdapterUnreachable(
    active: Active, environment: Environment, runtime: Runtime, topic: string, envelope: Envelope, slot: Slot)
    requires Start(active, environment) == Ok(runtime)
    requires slot in Schedule(ConsumerConfig(runtime), topic, envelope)
    ensures slot.adapterId in ConsumerConfig(runtime).adapters
    ensures slot.adapterId in ConsumerConfig(runtime).adapterPlugins
  {
    var known := AdapterIds(runtime.adapters);
    StartedIsChecked(active, environment, runtime);
    RoutesAccepted(runtime.routes, {}, known);
    AllAcceptedExact(runtime.routes, known);
    ScheduledExactly(ConsumerConfig(runtime), topic, envelope, slot);
    var route :| route in runtime.routes && RouteMatches(route, topic, envelope.eventType) && SlotOf(route, slot);
    assert RouteAccepted(route, known);
    PluginsKnown(runtime.adapters, slot.adapterId);
  }

  // ----- Outputs -----

  ghost predicate AllDeliver(routes: seq<Route>) {
    routes != [] && forall r :: r in routes ==> r.destinations != []
  }

  lemma {:induction false} LegacyDelivers(active: Active, environment: Environment, runtime: Runtime)
    requires Handed(active).routes == [] && Start(active, environment) == Ok(runtime)
    ensures AllDeliver(runtime.routes)
  {
    StartedIsChecked(active, environment, runtime);
    forall r | r in runtime.routes
      ensures r.destinations != []
    {
      var i :| 0 <= i < |runtime.routes| && runtime.routes[i] == r;
    }
  }

  lemma {:induction false} StartedDelivers(active: Active, environment: Environment, runtime: Runtime)
    requires Start(active, environment) == Ok(runtime) && (active.routes != [] ==> Closed(active))
    ensures AllDeliver(runtime.routes)
  {
    if active.routes == [] {
      LegacyDelivers(active, environment, runtime);
    } else {
      ReachesValidation(active, environment);
      assert runtime.routes == active.routes;
    }
  }

  /**
    A contract never starts a runtime without outputs, even where its policy allows
    none: either every route delivers somewhere or the runtime is the fallback to OpenClaw.
   */
  lemma {:induction false} OutputsAlwaysExist(
    contract: AppContract, profileName: string, mode: Option<ValidationMode>, force: bool,
    active: Active, environment: Environment, runtime: Runtime)
    requires Project(contract, profileName, mode, force) == Ok(active)
    requires Start(active, environment) == Ok(runtime)
    ensures AllDeliver(runtime.routes)
  {
    if active.routes != [] {
      ProjectionIsClosed(contract, profileName, mode, force, active);
    }
    StartedDelivers(active, environment, runtime);
  }

  // ----- Every received message is routed -----

  /**
    Without a `--topics` flag the runtime subscribes to its routes' topics exactly when
    they are comma-free, or are nothing but commas and blanks, so that it derives them anew.
   */
  lemma {:induction false} SubscribesToRoutes(active: Active, environment: Environment, runtime: Runtime)
    requires active.routes != [] && Closed(active)
    requires Start(active, environment) == Ok(runtime) && environment.topicsFlag == None
    ensures var topics := TopicsOf(active.routes);
            topics != [] && (runtime.topics == topics <==> CommaFree(topics) || ParseCsvTopics(Join(topics, ',')) == [])
    ensures runtime.routes == active.routes
    ensures forall r :: r in runtime.routes ==> Literal(r.sourceTopicPattern) && r.destinations != []
  {
    ReachesValidation(active, environment);
    assert active.routes[0].sourceTopicPattern in active.topics;
    TopicsAreTrimmed(active.routes);
    TopicsRoundTrip(active.topics);
  }

  /** The route takes this topic by name and this event type by its filters. */
  ghost predicate Takes(route: Route, topic: string, eventType: string) {
    && route.sourceTopicPattern == topic
    && (route.eventFilters == [] || exists f :: f in route.eventFilters && Glob.Matches(f, eventType))
  }

  /** Among literal routes with destinations, something is scheduled exactly when some route takes the message. */
  lemma {:induction false} RoutedExactly(config: Config, topic: string, envelope: Envelope)
    requires forall r :: r in config.routes ==> Literal(r.sourceTopicPattern) && r.destinations != []
    ensures Schedule(config, topic, envelope) != [] <==>
            exists r :: r in config.routes && Takes(r, topic, envelope.eventType)
  {
    forall r | r in config.routes
      ensures RouteMatches(r, topic, envelope.eventType) <==> Takes(r, topic, envelope.eventType)
    {
      LiteralMatchesItself(r.sourceTopicPattern, topic);
    }
    if Schedule(config, topic, envelope) != [] {
      ScheduledExactly(config, topic, envelope, Schedule(config, topic, envelope)[0]);
    }
    if r :| r in config.routes && Takes(r, topic, envelope.eventType) {
      var d := r.destinations[0];
      var slot := Slot(r.id, d.adapterId, d.required);
      assert SlotOf(r, slot);
      ScheduledExactly(config, topic, envelope, slot);
    }
  }

  lemma {:induction false} ClosedIsRouted(
    active: Active, environment: Environment, runtime: Runtime, topic: string, envelope: Envelope)
    requires active.routes != [] && Closed(active)
    requires Start(active, environment) == Ok(runtime) && environment.topicsFlag == None
    requires CommaFree(active.topics) && forall r :: r in active.routes ==> r.eventFilters == []
    requires topic in runtime.topics
    ensures Schedule(ConsumerConfig(runtime), topic, envelope) != []
  {
    SubscribesToRoutes(active, environment, runtime);
    var i :| 0 <= i < |active.routes| && active.routes[i].sourceTopicPattern == topic;
    assert active.routes[i] in runtime.routes && Takes(active.routes[i], topic, envelope.eventType);
    RoutedExactly(ConsumerConfig(runtime), topic, envelope);
  }

  /** Something is attempted for every message with a schedule. */
  lemma {:induction false} ScheduledIsAttempted(
    config: Config, topic: string, envelope: Envelope, answers: seq<bool>, dlq: SendOutcome)
    requires Schedule(config, topic, envelope) != []
    ensures Deliver(config, topic, envelope, answers, dlq).attempts != []
  {
    var matched := MatchedRoutes(config.routes, topic, envelope.eventType);
    AttemptsFollowSchedule(config, topic, matched, envelope, answers, dlq);
  }

  /**
    With comma-free topics and no event filters, every message of a subscribed topic is
    attempted somewhere: the no-output path is unreachable.
   */
  lemma {:induction false} EveryMessageRouted(
    contract: AppContract, profileName: string, mode: Option<ValidationMode>, force: bool,
    active: Active, environment: Environment, runtime: Runtime,
    topic: string, envelope: Envelope, answers: seq<bool>, dlq: SendOutcome)
    requires Project(contract, profileName, mode, force) == Ok(active) && active.routes != []
    requires Start(active, environment) == Ok(runtime) && environment.topicsFlag == None
    requires CommaFree(active.topics) && forall r :: r in active.routes ==> r.eventFilters == []
    requires topic in runtime.topics
    ensures Deliver(ConsumerConfig(runtime), topic, envelope, answers, dlq).attempts != []
  {
    ProjectionIsClosed(contract, profileName, mode, force, active);
    ClosedIsRouted(active, environment, runtime, topic, envelope);
    ScheduledIsAttempted(ConsumerConfig(runtime), topic, envelope, answers, dlq);
  }

  // ----- Transports -----

  lemma {:induction false} SoundTransport(transports: map<string, Transport>, env: AdapterEnv)
    requires SoundlyProjected(transports, env) && env.target.Mcp?
    ensures env.target.transportRef in transports
  {
    var a :| EgressHolds(transports, a) && ToAdapterEnv(a) == Some(env);
    assert a.driver.McpToolOutput?;
  }

  lemma {:induction false} TransportsResolve(transports: map<string, Transport>, adapters: seq<AdapterEnv>)
    requires forall i :: 0 <= i < |adapters| && adapters[i].target.Mcp? ==>
               adapters[i].target.transportRef in transports
    ensures var projected := ProjectTransports(transports, adapters);
            projected.Err? ==> !projected.error.MissingTransport?
  {
    if adapters != [] {
      TransportsResolve(transports, adapters[..|adapters| - 1]);
    }
  }

  lemma {:induction false} HoldingProfileResolves(contract: AppContract, profile: Profile, envs: seq<AdapterEnv>)
    requires AdaptersHold(contract, profile) && DistinctlyNamed(contract, profile)
    requires ProjectAdapters(contract.egressAdapters, profile.smashAdapters) == Ok(envs)
    ensures var projected := ProjectTransports(contract.transports, envs);
            projected.Err? ==> !projected.error.MissingTransport?
  {
    AdaptersSound(contract, profile, envs);
    forall i | 0 <= i < |envs| && envs[i].target.Mcp?
      ensures envs[i].target.transportRef in contract.transports
    {
      assert envs[i] in envs;
      SoundTransport(contract.transports, envs[i]);
    }
    TransportsResolve(contract.transports, envs);
  }

  lemma {:induction false} ProjectionResolves(contract: AppContract, profile: Profile, validated: ValidatedProfile)
    requires AdaptersHold(contract, profile) && DistinctlyNamed(contract, profile)
    requires validated.smashAdapters == profile.smashAdapters
    ensures var projected := ProjectProfile(contract, validated);
            projected.Err? ==> !projected.error.MissingTransport?
  {
    var adapters := ProjectAdapters(contract.egressAdapters, profile.smashAdapters);
    AdaptersFailOnAdapters(contract.egressAdapters, profile.smashAdapters);
    RoutesFailOnRoutes(contract.smashRoutes, validated.smashRoutes);
    if adapters.Ok? {
      HoldingProfileResolves(contract, profile, adapters.value);
    }
  }

  /** A validated profile with distinct active ids never projects into a missing transport. */
  lemma {:induction false} NoMissingTransport(contract: AppContract, profileName: string, validated: ValidatedProfile)
    requires Validated(contract, profileName) == Ok(validated)
    requires profileName in contract.profiles && DistinctlyNamed(contract, contract.profiles[profileName])
    ensures var projected := ProjectProfile(contract, validated);
            projected.Err? ==> !projected.error.MissingTransport?
  {
    ValidatedExactly(contract, profileName);
    ProjectionResolves(contract, contract.profiles[profileName], validated);
  }

  lemma {:induction false} AdaptersFailOnAdapters(adapters: seq<Egress>, ids: seq<string>)
    ensures var projected := ProjectAdapters(adapters, ids); projected.Err? ==> projected.error.BadAdapter?
  {
    if adapters != [] {
      AdaptersFailOnAdapters(adapters[..|adapters| - 1], ids);
    }
  }

  lemma {:induction false} RoutesFailOnRoutes(routes: seq<Route>, ids: seq<string>)
    ensures var projected := ProjectRoutes(routes, ids);
            projected.Err? ==> projected.error.EmptyPattern? || projected.error.WildcardPattern?
  {
    if routes != [] {
      RoutesFailOnRoutes(routes[..|routes| - 1], ids);
    }
  }

  // ----- Single conditions -----

  /** Which plugins the runtime accepts: renamings of something to something, pointers with a slash, named flags. */
  lemma {:induction false} PluginAcceptedExactly(plugin: Plugins.Plugin)
    ensures PluginValid(plugin) <==>
            match plugin
            case EventTypeAlias(from, to) => Trim(from) != "" && Trim(to) != ""
            case RequirePayloadField(pointer) => StartsWith(pointer, "/")
            case AddMetaFlag(flag) => Trim(flag) != ""
  {
    match plugin {
      case RequirePayloadField(pointer) =>
        if StartsWith(pointer, "/") {
          assert pointer[0] == pointer[..1][0] && TrimStart(pointer) == pointer;
          TrimmedToNothing(pointer);
        }
      case _ =>
    }
  }

  /** What trims to nothing has no other characters than blanks. */
  lemma {:induction false} TrimmedToNothing(s: string)
    requires s != "" && !IsWhitespace(s[0])
    ensures TrimEnd(s) != ""
  {
    if IsWhitespace(s[|s| - 1]) {
      TrimmedToNothing(s[..|s| - 1]);
    }
  }

  lemma {:induction false} BuiltFrom(
    handed: Active, given: seq<string>, environment: Environment, legacy: bool, runtime: Runtime)
    requires WithTopics(handed, given, environment, legacy) == Ok(runtime)
    ensures runtime.adapters == handed.adapters && runtime.routes == handed.routes
    ensures given != [] ==> runtime.topics == given
    ensures given == [] ==> DeriveTopics(handed.routes) == Ok(runtime.topics)
    ensures runtime.messageMaxBytes == environment.messageMaxBytes && runtime.dlqTopic == environment.dlqTopic
  {}

  /** The `--topics` flag, if it names any, beats both the contract and the environment. */
  lemma {:induction false} FlagTopicsWin(active: Active, environment: Environment, runtime: Runtime)
    requires Start(active, environment) == Ok(runtime)
    requires environment.topicsFlag.Some? && ParseCsvTopics(environment.topicsFlag.value) != []
    ensures runtime.topics == ParseCsvTopics(environment.topicsFlag.value)
  {
    var handed := Handed(active);
    var given := TopicsGiven(TopicsVariable(handed, environment));
    if handed.routes == [] {
      BuiltFrom(Fallback(handed, given, environment), given, environment, true, runtime);
    } else {
      BuiltFrom(handed, given, environment, false, runtime);
    }
  }

  /** `t` is `s` with a dash for every dot. */
  ghost predicate DotsToDashes(s: string, t: string) {
    |s| == |t| && forall i :: 0 <= i < |s| ==> t[i] == if s[i] == '.' then '-' else s[i]
  }

  lemma {:induction false} DashedExactly(s: string)
    ensures DotsToDashes(s, Dashed(s))
  {
    if s != "" {
      DashedExactly(s[1..]);
    }
  }

  /** The fallback delivers every message of each topic, required, to one OpenClaw adapter from the environment. */
  lemma {:induction false} LegacyRuntime(active: Active, environment: Environment, runtime: Runtime, i: nat)
    requires active.adapters == [] && active.routes == [] && Start(active, environment) == Ok(runtime)
    requires i < |runtime.routes|
    ensures environment.legacyUrl.Some? && |runtime.adapters| == 1
    ensures var a := runtime.adapters[0];
            && a.id == "openclaw-output" && a.plugins == []
            && a.target == Openclaw(environment.legacyUrl.value, "OPENCLAW_WEBHOOK_TOKEN",
                                    environment.legacyTimeoutSeconds, environment.legacyMaxRetries)
    ensures var route := runtime.routes[i];
            && route.eventFilters == [] && route.destinations == [Destination("openclaw-output", true)]
            && |route.id| >= 7 && route.id[..7] == "legacy-" && DotsToDashes(route.sourceTopicPattern, route.id[7..])
  {
    var handed := Handed(active);
    var given := TopicsGiven(TopicsVariable(handed, environment));
    BuiltFrom(Fallback(handed, given, environment), given, environment, true, runtime);
    DashedExactly(runtime.routes[i].sourceTopicPattern);
  }
}
