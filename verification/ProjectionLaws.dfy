/** What each setting of an adapter, transport or route becomes, key by key. */
module ProjectionLaws {
  import opened Wrappers
  import opened Text
  import opened Envelopes
  import opened Plugins
  import opened Smash
  import opened Contract
  import opened ContractValidator
  import opened Projection
  import opened RuntimeConfig
  import opened StartupLaws
  import opened RunningLaws

  /** The key holds this text, up to surrounding blanks; the text is not blank. */
  ghost predicate TextIs(settings: seq<Setting>, key: string, text: string) {
    text != "" && exists raw :: Lookup(settings, key) == Some(StringValue(raw)) && Trim(raw) == text
  }

  ghost predicate NatIs(settings: seq<Setting>, key: string, n: nat, bound: nat) {
    Lookup(settings, key) == Some(IntegerValue(n)) && n <= bound
  }

  ghost predicate TextMayBe(settings: seq<Setting>, key: string, text: Option<string>) {
    if text.Some? then TextIs(settings, key, text.value)
    else !exists raw :: Lookup(settings, key) == Some(StringValue(raw)) && Trim(raw) != ""
  }

  lemma {:induction false} TextRead(settings: seq<Setting>, key: string, text: string)
    ensures RequiredString(settings, key) == Some(text) <==> TextIs(settings, key, text)
  {}

  lemma {:induction false} NatRead(settings: seq<Setting>, key: string, n: nat, bound: nat)
    ensures RequiredNat(settings, key, bound) == Some(n) <==> NatIs(settings, key, n, bound)
  {}

  // ----- Plugins -----

  ghost predicate Says(entries: seq<Setting>, key: string, text: string) {
    Lookup(entries, key) == Some(StringValue(text))
  }

  /** The table spells this plugin out. */
  ghost predicate Spells(value: Toml, plugin: Plugin) {
    value.TableValue? &&
    match plugin
    case EventTypeAlias(from, to) =>
      Says(value.entries, "driver", "event_type_alias")
      && Says(value.entries, "from", from) && Says(value.entries, "to", to)
    case RequirePayloadField(pointer) =>
      Says(value.entries, "driver", "require_payload_field") && Says(value.entries, "pointer", pointer)
    case AddMetaFlag(flag) =>
      Says(value.entries, "driver", "add_meta_flag") && Says(value.entries, "flag", flag)
  }

  lemma {:induction false} PluginSpelled(value: Toml, plugin: Plugin)
    ensures ParsePlugin(value) == Some(plugin) <==> Spells(value, plugin)
  {}

  ghost predicate ItemsSpell(items: seq<Toml>, plugins: seq<Plugin>) {
    |items| == |plugins| && forall i :: 0 <= i < |items| ==> Spells(items[i], plugins[i])
  }

  lemma {:induction false} ItemsSpelled(items: seq<Toml>, plugins: seq<Plugin>)
    ensures ParsePluginItems(items) == Some(plugins) <==> ItemsSpell(items, plugins)
  {
    if items != [] && plugins != [] {
      PluginSpelled(items[0], plugins[0]);
      ItemsSpelled(items[1..], plugins[1..]);
      assert plugins == [plugins[0]] + plugins[1..];
      ItemsCons(items, plugins);
    }
  }

  lemma {:induction false} ItemsCons(items: seq<Toml>, plugins: seq<Plugin>)
    requires items != [] && plugins != []
    ensures ItemsSpell(items, plugins) <==> Spells(items[0], plugins[0]) && ItemsSpell(items[1..], plugins[1..])
  {
    if ItemsSpell(items[1..], plugins[1..]) && Spells(items[0], plugins[0]) {
      forall i | 0 <= i < |items|
        ensures Spells(items[i], plugins[i])
      {
        if i > 0 {
          assert items[1..][i - 1] == items[i] && plugins[1..][i - 1] == plugins[i];
        }
      }
    }
    if ItemsSpell(items, plugins) {
      forall i | 0 <= i < |items[1..]|
        ensures Spells(items[1..][i], plugins[1..][i])
      {
        assert items[1..][i] == items[i + 1] && plugins[1..][i] == plugins[i + 1];
      }
    }
  }

  /** The adapter's `plugins` list spells these plugins out, one for one; without the list there are none. */
  ghost predicate SpellsPlugins(settings: seq<Setting>, plugins: seq<Plugin>) {
    match Lookup(settings, "plugins")
    case None => plugins == []
    case Some(ListValue(items)) => ItemsSpell(items, plugins)
    case Some(_) => false
  }

  lemma {:induction false} PluginsSpelled(settings: seq<Setting>, plugins: seq<Plugin>)
    ensures ParsePlugins(settings) == Some(plugins) <==> SpellsPlugins(settings, plugins)
  {
    match Lookup(settings, "plugins") {
      case Some(ListValue(items)) => ItemsSpelled(items, plugins);
      case _ =>
    }
  }

  // ----- Targets -----

  ghost predicate PolicyIs(settings: seq<Setting>, retries: nat, backoff: nat) {
    match Lookup(settings, "retry_policy")
    case None => retries == 5 && backoff == 500
    case Some(TableValue(entries)) =>
      && (if Lookup(entries, "max_retries") == None then retries == 5
          else NatIs(entries, "max_retries", retries, 0xFFFF_FFFF))
      && (if Lookup(entries, "backoff_ms") == None then backoff == 500
          else NatIs(entries, "backoff_ms", backoff, 0x7FFF_FFFF_FFFF_FFFF))
    case Some(_) => false
  }

  /** The adapter's table spells this target out. */
  ghost predicate SpellsTarget(driver: EgressDriver, c: seq<Setting>, target: Target) {
    match target
    case Openclaw(url, token, timeout, retries) =>
      driver.OpenclawHttpOutput? && TextIs(c, "url", url) && TextIs(c, "token_env", token)
      && NatIs(c, "timeout_seconds", timeout, 0x7FFF_FFFF_FFFF_FFFF) && NatIs(c, "max_retries", retries, 0xFFFF_FFFF)
    case Mcp(tool, transport) =>
      driver.McpToolOutput? && TextIs(c, "tool_name", tool) && TextIs(c, "transport_ref", transport)
    case WebsocketClient(url, auth, token, timeout, retries, backoff) =>
      driver.WebsocketClientOutput? && TextIs(c, "url", url) && TextIs(c, "auth_mode", auth)
      && TextMayBe(c, "token_env", token) && NatIs(c, "send_timeout_ms", timeout, 0x7FFF_FFFF_FFFF_FFFF)
      && PolicyIs(c, retries, backoff)
    case WebsocketServer(bind, path, auth, token, clients, depth, timeout) =>
      driver.WebsocketServerOutput? && TextIs(c, "bind", bind) && TextIs(c, "path", path)
      && TextIs(c, "auth_mode", auth) && TextMayBe(c, "token_env", token)
      && NatIs(c, "max_clients", clients, 0x7FFF_FFFF_FFFF_FFFF)
      && NatIs(c, "queue_depth_per_client", depth, 0x7FFF_FFFF_FFFF_FFFF)
      && NatIs(c, "send_timeout_ms", timeout, 0x7FFF_FFFF_FFFF_FFFF)
    case KafkaTopic(topic, keyMode) =>
      driver.KafkaOutput? && TextIs(c, "topic", topic) && TextIs(c, "key_mode", keyMode)
  }

  lemma {:induction false} PolicyRead(settings: seq<Setting>, retries: nat, backoff: nat)
    ensures ParseRetryPolicy(settings) == Some((retries, backoff)) <==> PolicyIs(settings, retries, backoff)
  {}

  lemma {:induction false} TextMayBeRead(settings: seq<Setting>, key: string, text: Option<string>)
    ensures TrimmedText(Lookup(settings, key)) == text <==> TextMayBe(settings, key, text)
  {}

  lemma {:induction false} OpenclawSpelled(c: seq<Setting>, target: Target)
    requires target.Openclaw?
    ensures ToTarget(OpenclawHttpOutput, c) == Some(target) <==> SpellsTarget(OpenclawHttpOutput, c, target)
  {
    TextRead(c, "url", target.url);
    TextRead(c, "token_env", target.token);
    NatRead(c, "timeout_seconds", target.timeoutSeconds, 0x7FFF_FFFF_FFFF_FFFF);
    NatRead(c, "max_retries", target.maxRetries, 0xFFFF_FFFF);
  }

  lemma {:induction false} McpSpelled(c: seq<Setting>, target: Target)
    requires target.Mcp?
    ensures ToTarget(McpToolOutput, c) == Some(target) <==> SpellsTarget(McpToolOutput, c, target)
  {
    TextRead(c, "tool_name", target.toolName);
    TextRead(c, "transport_ref", target.transportRef);
  }

  lemma {:induction false} WebsocketClientSpelled(c: seq<Setting>, target: Target)
    requires target.WebsocketClient?
    ensures ToTarget(WebsocketClientOutput, c) == Some(target) <==> SpellsTarget(WebsocketClientOutput, c, target)
  {
    TextRead(c, "url", target.url);
    TextRead(c, "auth_mode", target.authMode);
    TextMayBeRead(c, "token_env", target.tokenEnv);
    NatRead(c, "send_timeout_ms", target.sendTimeoutMs, 0x7FFF_FFFF_FFFF_FFFF);
    PolicyRead(c, target.retryMaxRetries, target.retryBackoffMs);
  }

  lemma {:induction false} WebsocketServerSpelled(c: seq<Setting>, target: Target)
    requires target.WebsocketServer?
    ensures ToTarget(WebsocketServerOutput, c) == Some(target) <==> SpellsTarget(WebsocketServerOutput, c, target)
  {
    TextRead(c, "bind", target.bind);
    TextRead(c, "path", target.path);
    TextRead(c, "auth_mode", target.authMode);
    TextMayBeRead(c, "token_env", target.tokenEnv);
    NatRead(c, "max_clients", target.maxClients, 0x7FFF_FFFF_FFFF_FFFF);
    NatRead(c, "queue_depth_per_client", target.queueDepth, 0x7FFF_FFFF_FFFF_FFFF);
    NatRead(c, "send_timeout_ms", target.sendTimeoutMs, 0x7FFF_FFFF_FFFF_FFFF);
  }

  lemma {:induction false} KafkaSpelled(c: seq<Setting>, target: Target)
    requires target.KafkaTopic?
    ensures ToTarget(KafkaOutput, c) == Some(target) <==> SpellsTarget(KafkaOutput, c, target)
  {
    TextRead(c, "topic", target.topic);
    TextRead(c, "key_mode", target.keyMode);
  }

  /** An adapter converts to a target exactly when its table spells that target out. */
  lemma {:induction false} TargetSpelled(driver: EgressDriver, c: seq<Setting>, target: Target)
    ensures ToTarget(driver, c) == Some(target) <==> SpellsTarget(driver, c, target)
  {
    KindsMatch(driver, c, target);
    match target {
      case Openclaw(_, _, _, _) => OpenclawSpelled(c, target);
      case Mcp(_, _) => McpSpelled(c, target);
      case WebsocketClient(_, _, _, _, _, _) => WebsocketClientSpelled(c, target);
      case WebsocketServer(_, _, _, _, _, _, _) => WebsocketServerSpelled(c, target);
      case KafkaTopic(_, _) => KafkaSpelled(c, target);
    }
  }

  lemma {:induction false} KindsMatch(driver: EgressDriver, c: seq<Setting>, target: Target)
    ensures ToTarget(driver, c) == Some(target) ==>
              match target
              case Openclaw(_, _, _, _) => driver == OpenclawHttpOutput
              case Mcp(_, _) => driver == McpToolOutput
              case WebsocketClient(_, _, _, _, _, _) => driver == WebsocketClientOutput
              case WebsocketServer(_, _, _, _, _, _, _) => driver == WebsocketServerOutput
              case KafkaTopic(_, _) => driver == KafkaOutput
  {}

  /** An adapter is projected to exactly what its id, table and plugin list spell out. */
  lemma {:induction false} AdapterSpelled(adapter: Egress, env: AdapterEnv)
    ensures ToAdapterEnv(adapter) == Some(env) <==>
            && env.id == adapter.id
            && SpellsTarget(adapter.driver, adapter.config, env.target)
            && SpellsPlugins(adapter.config, env.plugins)
  {
    TargetSpelled(adapter.driver, adapter.config, env.target);
    PluginsSpelled(adapter.config, env.plugins);
  }

  /** A route is projected with its pattern trimmed and everything else kept, if the pattern is a literal. */
  lemma {:induction false} RouteSpelled(r: Route, route: Route)
    ensures ProjectRoute(r) == Ok(route) <==>
            && route.sourceTopicPattern == Trim(r.sourceTopicPattern) != "" && '*' !in route.sourceTopicPattern
            && route.id == r.id && route.eventFilters == r.eventFilters && route.destinations == r.destinations
  {}

  // ----- What the consumer gets -----

  lemma {:induction false} PluginsByDistinctId(adapters: seq<AdapterEnv>, i: nat)
    requires Distinct(EnvIds(adapters)) && i < |adapters|
    ensures adapters[i].id in PluginsById(adapters) && PluginsById(adapters)[adapters[i].id] == adapters[i].plugins
  {
    var n := |adapters| - 1;
    if i < n {
      var front := adapters[..n];
      assert EnvIds(adapters) == EnvIds(front) + [adapters[n].id];
      DistinctSnoc(EnvIds(front), adapters[n].id);
      assert EnvIds(front)[i] in EnvIds(front);
      PluginsByDistinctId(front, i);
    }
  }

  lemma {:induction false} BuiltIsDistinct(
    handed: Active, given: seq<string>, environment: Environment, legacy: bool, runtime: Runtime)
    requires WithTopics(handed, given, environment, legacy) == Ok(runtime)
    ensures AdaptersError(runtime.adapters, runtime.transports) == None
    ensures runtime.allowNoOutput == handed.allowNoOutput && runtime.noOutputSink == handed.noOutputSink
  {}

  lemma {:induction false} StartedIsDistinct(active: Active, environment: Environment, runtime: Runtime)
    requires Start(active, environment) == Ok(runtime)
    ensures Distinct(EnvIds(runtime.adapters))
    ensures runtime.allowNoOutput == Handed(active).allowNoOutput && runtime.noOutputSink == Handed(active).noOutputSink
  {
    var handed := Handed(active);
    var given := TopicsGiven(TopicsVariable(handed, environment));
    if handed.routes == [] {
      BuiltIsDistinct(Fallback(handed, given, environment), given, environment, true, runtime);
    } else {
      BuiltIsDistinct(handed, given, environment, false, runtime);
    }
    AdaptersAccepted(runtime.adapters, {}, a => FieldError(a, runtime.transports));
  }

  /** The consumer of a started runtime has its routes and policy, and each adapter with its own plugins. */
  lemma {:induction false} ConsumerGetsRuntime(active: Active, environment: Environment, runtime: Runtime, i: nat)
    requires Start(active, environment) == Ok(runtime) && i < |runtime.adapters|
    ensures var config, a := ConsumerConfig(runtime), runtime.adapters[i];
            && config.routes == runtime.routes && a.id in config.adapters
            && a.id in config.adapterPlugins && config.adapterPlugins[a.id] == a.plugins
            && config.allowNoOutput == runtime.allowNoOutput && config.noOutputSink == runtime.noOutputSink
  {
    StartedIsDistinct(active, environment, runtime);
    PluginsByDistinctId(runtime.adapters, i);
  }

  /** The plugins are those a named adapter of the contract with this id spells out. */
  ghost predicate SpelledInContract(contract: AppContract, profile: Profile, id: string, plugins: seq<Plugin>) {
    exists a :: a in contract.egressAdapters && a.id == id && id in profile.smashAdapters
                && SpellsPlugins(a.config, plugins)
  }

  lemma {:induction false} ProjectedPluginsSpelled(contract: AppContract, profile: Profile, active: Active, i: nat)
    requires Projects(contract, profile, active) && i < |active.adapters|
    ensures SpelledInContract(contract, profile, active.adapters[i].id, active.adapters[i].plugins)
  {
    AdaptersProjected(contract.egressAdapters, profile.smashAdapters);
    var env := active.adapters[i];
    assert env in active.adapters;
    var a :| a in contract.egressAdapters && a.id in profile.smashAdapters && ToAdapterEnv(a) == Some(env);
    AdapterSpelled(a, env);
  }

  /**
    From the contract to the delivery: whatever is scheduled in a started runtime runs with
    the plugins that its adapter's list in the contract spells out.
   */
  lemma {:induction false} ScheduledPluginsSpelled(
    contract: AppContract, profileName: string, mode: Option<ValidationMode>, force: bool,
    active: Active, environment: Environment, runtime: Runtime, topic: string, envelope: Envelope, slot: Slot)
    requires Project(contract, profileName, mode, force) == Ok(active) && active.routes != []
    requires Start(active, environment) == Ok(runtime)
    requires slot in Schedule(ConsumerConfig(runtime), topic, envelope)
    ensures profileName in contract.profiles
    ensures slot.adapterId in ConsumerConfig(runtime).adapterPlugins
    ensures SpelledInContract(contract, contract.profiles[profileName], slot.adapterId,
                              ConsumerConfig(runtime).adapterPlugins[slot.adapterId])
  {
    ProjectionIsValidated(contract, profileName, mode, force, active);
    ProjectionIsClosed(contract, profileName, mode, force, active);
    var i := ScheduledAdapter(active, environment, runtime, topic, envelope, slot);
    ProjectedPluginsSpelled(contract, contract.profiles[profileName], active, i);
  }

  lemma {:induction false} ScheduledAdapter(
    active: Active, environment: Environment, runtime: Runtime, topic: string, envelope: Envelope, slot: Slot)
    returns (i: nat)
    requires active.routes != [] && Closed(active) && Start(active, environment) == Ok(runtime)
    requires slot in Schedule(ConsumerConfig(runtime), topic, envelope)
    ensures i < |active.adapters| && active.adapters[i].id == slot.adapterId
    ensures slot.adapterId in ConsumerConfig(runtime).adapterPlugins
    ensures ConsumerConfig(runtime).adapterPlugins[slot.adapterId] == active.adapters[i].plugins
  {
    MissingAdapterUnreachable(active, environment, runtime, topic, envelope, slot);
    StartedAdapters(active, environment, runtime);
    var a :| a in active.adapters && a.id == slot.adapterId;
    i :| 0 <= i < |active.adapters| && active.adapters[i] == a;
    ConsumerGetsRuntime(active, environment, runtime, i);
  }

  lemma {:induction false} StartedAdapters(active: Active, environment: Environment, runtime: Runtime)
    requires active.routes != [] && Closed(active) && Start(active, environment) == Ok(runtime)
    ensures runtime.adapters == active.adapters
  {
    ReachesValidation(active, environment);
  }

  /** The contract's output policy is the one the consumer runs with. */
  lemma {:induction false} PolicyHandedOver(
    contract: AppContract, profileName: string, mode: Option<ValidationMode>, force: bool,
    active: Active, environment: Environment, runtime: Runtime)
    requires Project(contract, profileName, mode, force) == Ok(active) && active.adapters != []
    requires Start(active, environment) == Ok(runtime)
    ensures ConsumerConfig(runtime).allowNoOutput == contract.policies.allowNoOutput
    ensures ConsumerConfig(runtime).noOutputSink == contract.policies.noOutputSink
  {
    StartedIsDistinct(active, environment, runtime);
  }

  // ----- Transports -----

  /** Every argument is a non-blank string of the list, trimmed, and none is left out. */
  ghost predicate ArgumentsAre(settings: seq<Setting>, args: seq<string>) {
    match Lookup(settings, "args")
    case Some(ListValue(items)) =>
      && (forall arg :: arg in args <==> arg != "" && exists raw :: StringValue(raw) in items && Trim(raw) == arg)
      && ((forall i :: 0 <= i < |items| ==> items[i].StringValue? && Trim(items[i].text) != "") ==>
            |args| == |items| && forall i :: 0 <= i < |items| ==> args[i] == Trim(items[i].text))
    case _ => args == []
  }

  lemma {:induction false} ItemsKept(items: seq<Toml>, arg: string)
    ensures arg in StringItems(items) <==> arg != "" && exists raw :: StringValue(raw) in items && Trim(raw) == arg
  {
    if items != [] {
      ItemsKept(items[1..], arg);
      assert items == [items[0]] + items[1..];
    }
  }

  lemma {:induction false} ItemsInOrder(items: seq<Toml>)
    requires forall i :: 0 <= i < |items| ==> items[i].StringValue? && Trim(items[i].text) != ""
    ensures |StringItems(items)| == |items|
    ensures forall i :: 0 <= i < |items| ==> StringItems(items)[i] == Trim(items[i].text)
  {
    if items != [] {
      ItemsInOrder(items[1..]);
    }
  }

  lemma {:induction false} ArgumentsRead(settings: seq<Setting>)
    ensures ArgumentsAre(settings, OptionalStrings(settings, "args"))
  {
    match Lookup(settings, "args") {
      case Some(ListValue(items)) =>
        forall arg
          ensures arg in StringItems(items) <==>
                  arg != "" && exists raw :: StringValue(raw) in items && Trim(raw) == arg
        {
          ItemsKept(items, arg);
        }
        if forall i :: 0 <= i < |items| ==> items[i].StringValue? && Trim(items[i].text) != "" {
          ItemsInOrder(items);
        }
      case _ =>
    }
  }

  ghost predicate EnvironmentIs(settings: seq<Setting>, environment: seq<Setting>) {
    match Lookup(settings, "env")
    case None => environment == []
    case Some(TableValue(entries)) =>
      environment == entries && forall i :: 0 <= i < |entries| ==> entries[i].value.StringValue?
    case Some(_) => false
  }

  /** A transport is projected to what its driver and table spell out. */
  lemma {:induction false} TransportSpelled(name: string, transport: Transport, env: TransportEnv)
    requires ToTransportEnv(name, transport) == Some(env)
    ensures env.name == name
    ensures match env
            case StdioEnv(_, command, args, environment) =>
              && transport.driver == StdioJsonrpc && TextIs(transport.config, "command", command)
              && ArgumentsAre(transport.config, args) && EnvironmentIs(transport.config, environment)
            case HttpSseEnv(_, url, auth, token) =>
              && transport.driver == HttpSse && TextIs(transport.config, "url", url)
              && TextIs(transport.config, "auth_mode", auth) && TextMayBe(transport.config, "token_env", token)
  {
    var c := transport.config;
    match env {
      case StdioEnv(_, command, _, _) =>
        TextRead(c, "command", command);
        ArgumentsRead(c);
      case HttpSseEnv(_, url, auth, token) =>
        TextRead(c, "url", url);
        TextRead(c, "auth_mode", auth);
        TextMayBeRead(c, "token_env", token);
    }
  }

  // ----- Validation first -----

  /** The mode given on the command line replaces the contract's; a valid profile is projected. */
  lemma {:induction false} ValidIsProjected(
    contract: AppContract, profileName: string, mode: Option<ValidationMode>, force: bool, checked: AppContract)
    requires checked == contract.(policies := contract.policies.(validationMode :=
                          if mode.Some? then mode.value else contract.policies.validationMode))
    ensures Validated(checked, profileName).Ok? ==>
              Project(contract, profileName, mode, force) ==
              ProjectProfile(contract, Validated(checked, profileName).value)
    ensures Validated(checked, profileName).Err? && (!force || exists i ::
              0 <= i < |Issues(checked, profileName)| && Issues(checked, profileName)[i].securityCritical) ==>
              Project(contract, profileName, mode, force) == Err(InvalidContract(Issues(checked, profileName)))
    ensures Validated(checked, profileName).Err? && force && (forall i ::
              0 <= i < |Issues(checked, profileName)| ==> !Issues(checked, profileName)[i].securityCritical) ==>
              Project(contract, profileName, mode, force).Ok?
              && Project(contract, profileName, mode, force).value.adapters == []
              && Project(contract, profileName, mode, force).value.routes == []
  {
    assert WithMode(contract, mode) == checked;
  }

  /** A validated profile names what the contract's profile names; debug mode says what it skipped. */
  lemma {:induction false} ValidatedNamesProfile(contract: AppContract, profileName: string)
    requires Validated(contract, profileName).Ok?
    ensures profileName in contract.profiles
    ensures var profile, validated := contract.profiles[profileName], Validated(contract, profileName).value;
            && validated.profileName == profileName && validated.mode == contract.policies.validationMode
            && validated.serveAdapters == profile.serveAdapters && validated.smashAdapters == profile.smashAdapters
            && validated.serveRoutes == profile.serveRoutes && validated.smashRoutes == profile.smashRoutes
            && validated.skipped == if contract.policies.validationMode == Strict then []
                                    else ["non_security_profile_label_check", "non_security_profile_env_table_check"]
  {}
}
