/** One small contract with a websocket output: with "bearer" it never starts, with "none" it does. */
module StartupWitness {
  import opened Wrappers
  import opened Text
  import opened Smash
  import opened Contract
  import opened ContractValidator
  import opened ProfileValidity
  import opened Projection
  import opened RuntimeConfig
  import opened StartupLaws
  import opened RunningLaws

  function Table(authMode: string): seq<Setting> {
    [Setting("auth_mode", StringValue(authMode)), Setting("bind", StringValue("b")),
     Setting("max_clients", IntegerValue(1)), Setting("path", StringValue("p")),
     Setting("queue_depth_per_client", IntegerValue(1)), Setting("send_timeout_ms", IntegerValue(1))]
  }

  function Output(authMode: string): Egress { Egress("ws", WebsocketServerOutput, Table(authMode)) }

  const ROUTE := Smash.Route("r", "t", [], [Destination("ws", true)])

  const PROFILE := Profile("label", [], ["ws"], [], ["r"])

  function Sample(authMode: string): AppContract {
    AppContract(Policies(false, None, Strict), [], [], [Output(authMode)], [ROUTE], map[], map["p" := PROFILE])
  }

  function SampleTarget(authMode: string): Target { WebsocketServer("b", "p", authMode, None, 1, 1, 1) }

  function SampleActive(authMode: string): Active {
    Active([AdapterEnv("ws", SampleTarget(authMode), [])], [ROUTE], [], ["t"], false, None)
  }

  // ----- The table -----

  lemma {:induction false} LookupAt(settings: seq<Setting>, i: nat)
    requires i < |settings| && forall j :: 0 <= j < i ==> settings[j].key != settings[i].key
    ensures Lookup(settings, settings[i].key) == Some(settings[i].value)
  {
    if i > 0 {
      assert settings[0].key != settings[i].key;
      LookupAt(settings[1..], i - 1);
    }
  }

  lemma {:induction false} TableLookups(authMode: string)
    ensures var t := Table(authMode);
            && Lookup(t, "auth_mode") == Some(StringValue(authMode)) && Lookup(t, "bind") == Some(StringValue("b"))
            && Lookup(t, "max_clients") == Some(IntegerValue(1)) && Lookup(t, "path") == Some(StringValue("p"))
            && Lookup(t, "queue_depth_per_client") == Some(IntegerValue(1))
            && Lookup(t, "send_timeout_ms") == Some(IntegerValue(1))
  {
    var t := Table(authMode);
    LookupAt(t, 0);
    LookupAt(t, 1);
    LookupAt(t, 2);
    LookupAt(t, 3);
    LookupAt(t, 4);
    LookupAt(t, 5);
  }

  lemma {:induction false} NoOtherKeys(authMode: string, key: string)
    requires key == "token_env" || key == "plugins"
    ensures Lookup(Table(authMode), key) == None
  {
    LookupFinds(Table(authMode), key);
  }

  predicate Mode(authMode: string) { authMode == "none" || authMode == "bearer" }

  lemma {:induction false} ModeIsTrimmed(authMode: string)
    requires Mode(authMode)
    ensures Trim(authMode) == authMode
  {}

  // ----- Validation -----

  lemma {:induction false} TableHolds(authMode: string)
    requires Mode(authMode)
    ensures EgressHolds(map[], Output(authMode))
  {
    TableLookups(authMode);
    ModeIsTrimmed(authMode);
    assert Trim("b") == "b" && Trim("p") == "p";
  }

  lemma {:induction false} OutputIsIndexed(authMode: string)
    ensures IndexEgress([Output(authMode)]) == map["ws" := Output(authMode)]
    ensures ActiveEgress(["ws"], map["ws" := Output(authMode)]) == [Output(authMode)]
    ensures TransportRefs([Output(authMode)]) == []
  {
    assert [Output(authMode)][..0] == [] && ["ws"][1..] == [];
  }

  lemma {:induction false} SampleAdaptersHold(authMode: string)
    requires Mode(authMode)
    ensures AdaptersHold(Sample(authMode), PROFILE) && ReferencesHold(Sample(authMode), PROFILE)
  {
    OutputIsIndexed(authMode);
    TableHolds(authMode);
    assert RouteIds([ROUTE])[0] == "r";
  }

  lemma {:induction false} SampleOutputsHold(authMode: string)
    ensures OutputsHold(Sample(authMode), PROFILE)
  {
    OutputIsIndexed(authMode);
    assert [ROUTE][1..] == [] && ActiveRoutes([ROUTE], ["r"]) == [ROUTE];
    assert ROUTE.destinations[0].adapterId in PROFILE.smashAdapters;
  }

  lemma {:induction false} SampleIsValid(authMode: string)
    requires Mode(authMode)
    ensures Validated(Sample(authMode), "p").Ok?
  {
    SampleAdaptersHold(authMode);
    SampleOutputsHold(authMode);
    assert Trim("label") == "label";
    ValidatedExactly(Sample(authMode), "p");
  }

  // ----- Projection -----

  lemma {:induction false} OutputConverts(authMode: string)
    requires Mode(authMode)
    ensures ToAdapterEnv(Output(authMode)) == Some(AdapterEnv("ws", SampleTarget(authMode), []))
  {
    TableLookups(authMode);
    ModeIsTrimmed(authMode);
    NoOtherKeys(authMode, "token_env");
    NoOtherKeys(authMode, "plugins");
    assert Trim("b") == "b" && Trim("p") == "p";
  }

  lemma {:induction false} RoutesConvert()
    ensures ProjectRoutes([ROUTE], ["r"]) == Ok([ROUTE]) && TopicsOf([ROUTE]) == ["t"]
  {
    assert Trim("t") == "t" && '*' !in "t";
    assert ProjectRoute(ROUTE) == Ok(ROUTE);
    assert [ROUTE][..0] == [] && ProjectRoutes([], ["r"]) == Ok([]) && TopicsOf([]) == [];
    assert [] + [ROUTE] == [ROUTE];
  }

  lemma {:induction false} AdaptersConvert(authMode: string)
    requires Mode(authMode)
    ensures ProjectAdapters([Output(authMode)], ["ws"]) == Ok(SampleActive(authMode).adapters)
  {
    OutputConverts(authMode);
    var outputs, env := [Output(authMode)], AdapterEnv("ws", SampleTarget(authMode), []);
    assert outputs[..0] == [] && ProjectAdapters([], ["ws"]) == Ok([]);
    assert outputs[0].id == "ws" && outputs[0].id in ["ws"];
    assert [] + [env] == [env];
  }

  lemma {:induction false} TransportsConvert(authMode: string)
    ensures ProjectTransports(map[], SampleActive(authMode).adapters) == Ok([])
  {
    var envs := SampleActive(authMode).adapters;
    assert envs[..0] == [] && ProjectTransports(map[], []) == Ok([]);
  }

  lemma {:induction false} ProfileProjects(authMode: string, profile: ValidatedProfile)
    requires Mode(authMode) && profile.smashAdapters == ["ws"] && profile.smashRoutes == ["r"]
    ensures ProjectProfile(Sample(authMode), profile) == Ok(SampleActive(authMode))
  {
    AdaptersConvert(authMode);
    RoutesConvert();
    TransportsConvert(authMode);
  }

  lemma {:induction false} ValidatedNames(contract: AppContract, profileName: string)
    requires Validated(contract, profileName).Ok?
    ensures profileName in contract.profiles
    ensures var profile, validated := contract.profiles[profileName], Validated(contract, profileName).value;
            validated.smashAdapters == profile.smashAdapters && validated.smashRoutes == profile.smashRoutes
  {}

  lemma {:induction false} SampleProjects(authMode: string)
    requires Mode(authMode)
    ensures Project(Sample(authMode), "p", None, false) == Ok(SampleActive(authMode))
  {
    SampleIsValid(authMode);
    ValidatedNames(Sample(authMode), "p");
    ProfileProjects(authMode, Validated(Sample(authMode), "p").value);
  }

  // ----- Starting -----

  /** The contract with bearer authentication validates and projects, and no environment starts it. */
  lemma {:induction false} BearerNeverStarts(environment: Environment)
    ensures Project(Sample("bearer"), "p", None, false) == Ok(SampleActive("bearer"))
    ensures Start(SampleActive("bearer"), environment).Err?
  {
    SampleProjects("bearer");
    AuthenticatedWebsocketNeverStarts(Sample("bearer"), "p", None, false, SampleActive("bearer"), environment, 0);
  }

  lemma {:induction false} SampleIsDistinct(authMode: string)
    ensures DistinctlyNamed(Sample(authMode), PROFILE)
  {
    var adapters, routes := EgressIds([Output(authMode)]), RouteIds([ROUTE]);
    assert adapters == ["ws"] && routes == ["r"];
    assert ["ws"][..0] == [] && Kept(["ws"], ["ws"]) == ["ws"];
    assert ["r"][..0] == [] && Kept(["r"], ["r"]) == ["r"];
  }

  lemma {:induction false} SampleFieldsHold(environment: Environment)
    requires environment.messageMaxBytes >= 128 && !Blank(environment.dlqTopic)
    ensures FieldLevelHolds(SampleActive("none"), environment)
  {
    assert Trim("ws") == "ws" && Trim("r") == "r";
  }

  /** The same contract without authentication starts in every sane environment. */
  lemma {:induction false} UnauthenticatedStarts(environment: Environment)
    requires environment.messageMaxBytes >= 128 && !Blank(environment.dlqTopic)
    ensures Project(Sample("none"), "p", None, false) == Ok(SampleActive("none"))
    ensures Start(SampleActive("none"), environment).Ok?
  {
    SampleProjects("none");
    SampleIsDistinct("none");
    SampleFieldsHold(environment);
    StartsExactly(Sample("none"), "p", None, false, SampleActive("none"), environment);
  }
}
