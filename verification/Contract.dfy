/** The parsed contract: adapters, routes, transports, policies and profiles. */
module Contract {
  import opened Wrappers
  import opened Text
  import opened Smash

  /** A configuration value; `OtherValue` stands for booleans, floats and dates. */
  datatype Toml =
    | StringValue(text: string)
    | IntegerValue(n: int)
    | OtherValue
    | ListValue(items: seq<Toml>)
    | TableValue(entries: seq<Setting>)

  /** One key of a table; a table lists its keys in sorted order. */
  datatype Setting = Setting(key: string, value: Toml)

  function Lookup(settings: seq<Setting>, key: string): Option<Toml> {
    if settings == [] then None
    else if settings[0].key == key then Some(settings[0].value)
    else Lookup(settings[1..], key)
  }

  datatype IngressDriver =
    HttpWebhookIngress | WebsocketIngress | McpIngestExposed | KafkaIngress | UnknownIngress(name: string)

  datatype EgressDriver =
    | OpenclawHttpOutput | McpToolOutput | WebsocketClientOutput | WebsocketServerOutput | KafkaOutput
    | UnknownEgress(name: string)

  datatype TransportDriver = StdioJsonrpc | HttpSse | UnknownTransport(name: string)

  datatype Ingress = Ingress(id: string, driver: IngressDriver, config: seq<Setting>)

  datatype Egress = Egress(id: string, driver: EgressDriver, config: seq<Setting>)

  datatype Transport = Transport(driver: TransportDriver, config: seq<Setting>)

  datatype ValidationMode = Strict | Debug

  datatype Policies = Policies(
    allowNoOutput: bool, noOutputSink: Option<NoOutputSink>, validationMode: ValidationMode)

  datatype Profile = Profile(
    labelText: string, serveAdapters: seq<string>, smashAdapters: seq<string>,
    serveRoutes: seq<string>, smashRoutes: seq<string>)

  datatype AppContract = AppContract(
    policies: Policies,
    ingressAdapters: seq<Ingress>,
    serveRouteIds: seq<string>,
    egressAdapters: seq<Egress>,
    smashRoutes: seq<Route>,
    transports: map<string, Transport>,
    profiles: map<string, Profile>)

  predicate IsNonEmpty(value: Toml) {
    match value
    case StringValue(text) => Trim(text) != ""
    case ListValue(items) => items != []
    case TableValue(entries) => entries != []
    case _ => true
  }

  /** A non-blank string value, trimmed. */
  function TrimmedText(value: Option<Toml>): Option<string> {
    match value
    case Some(StringValue(text)) => if Trim(text) == "" then None else Some(Trim(text))
    case _ => None
  }
}
