/** The built-in webhook sources: event types, deduplication keys and cooldown keys. */
module Sources {
  import opened Wrappers
  import opened Text
  import opened Decimal
  import opened Json

  datatype Source = Github | Linear | Example

  /** Request headers by canonical name. */
  type Headers = map<string, string>

  datatype ValidationError = Unauthorized | BadRequest(message: string)

  function Name(source: Source): string {
    match source
    case Github => "github"
    case Linear => "linear"
    case Example => "example"
  }

  function LowerChar(c: char): char {
    if 'A' <= c <= 'Z' then ((c as int) + 32) as char else c
  }

  function ToLower(s: string): string {
    if s == "" then "" else [LowerChar(s[0])] + ToLower(s[1..])
  }

  function NormalizeSourceName(path: string): Option<string> {
    var normalized := ToLower(Trim(path));
    if normalized == "" then None else Some(normalized)
  }

  function HandlerFor(normalized: string): (source: Option<Source>)
    ensures source.Some? ==> Name(source.value) == normalized
  {
    if normalized == "example" then Some(Example)
    else if normalized == "github" then Some(Github)
    else if normalized == "linear" then Some(Linear)
    else None
  }

  function NonBlank(s: string): Option<string> {
    if Trim(s) == "" then None else Some(Trim(s))
  }

  function HeaderValue(headers: Headers, name: string): Option<string> {
    if name in headers then NonBlank(headers[name]) else None
  }

  function Descend(payload: Value, path: seq<string>): Option<Value>
    decreases |path|
  {
    if path == [] then Some(payload)
    else
      match Get(payload, path[0])
      case Some(child) => Descend(child, path[1..])
      case None => None
  }

  function IntegerText(n: int): string {
    if n < 0 then "-" + Print(-n) else Print(n)
  }

  /** A non-blank string, trimmed, or an integer in decimal. */
  function PayloadToken(payload: Value, path: seq<string>): Option<string> {
    match Descend(payload, path)
    case Some(Str(text)) => NonBlank(text)
    case Some(Number(Integer(n))) => Some(IntegerText(n))
    case _ => None
  }

  function OrElse(first: Option<string>, second: Option<string>): Option<string> {
    if first.Some? then first else second
  }

  function GetOr(token: Option<string>, default: string): string {
    if token.Some? then token.value else default
  }

  function TextField(payload: Value, key: string): Option<string> {
    match Get(payload, key)
    case Some(Str(text)) => NonBlank(text)
    case _ => None
  }

  function WithAction(event: string, action: Option<string>): string {
    if action.Some? then event + "." + action.value else event
  }

  function LowerAction(action: Option<string>): Option<string> {
    if action.Some? then Some(ToLower(action.value)) else None
  }

  function EventType(source: Source, headers: Headers, payload: Value): Result<string, ValidationError> {
    match source
    case Github =>
      (match HeaderValue(headers, "X-GitHub-Event")
       case None => Err(BadRequest("missing X-GitHub-Event"))
       case Some(event) => Ok(WithAction(event, TextField(payload, "action"))))
    case Linear =>
      (match OrElse(TextField(payload, "type"), HeaderValue(headers, "Linear-Event"))
       case None => Err(BadRequest("missing linear type"))
       case Some(kind) => Ok(WithAction(ToLower(kind), LowerAction(TextField(payload, "action")))))
    case Example =>
      (match OrElse(HeaderValue(headers, "X-Example-Event"),
                    OrElse(PayloadToken(payload, ["event_type"]), PayloadToken(payload, ["type"])))
       case None => Err(BadRequest("missing example event"))
       case Some(event) => Ok(WithAction(ToLower(event), LowerAction(PayloadToken(payload, ["action"])))))
  }

  /** The entity a cooldown is about. */
  function CooldownEntity(source: Source, payload: Value): Option<string> {
    match source
    case Github =>
      OrElse(PayloadToken(payload, ["pull_request", "number"]),
             OrElse(PayloadToken(payload, ["issue", "number"]), PayloadToken(payload, ["number"])))
    case Linear => OrElse(PayloadToken(payload, ["data", "id"]), PayloadToken(payload, ["data", "identifier"]))
    case Example => OrElse(PayloadToken(payload, ["data", "id"]), PayloadToken(payload, ["id"]))
  }

  /** The entity in a deduplication key falls back further, finally to a fixed word. */
  function DedupEntity(source: Source, payload: Value): string {
    var fallback :=
      match source
      case Github =>
        OrElse(PayloadToken(payload, ["comment", "id"]),
               OrElse(PayloadToken(payload, ["review", "id"]), PayloadToken(payload, ["repository", "id"])))
      case Linear => PayloadToken(payload, ["webhookId"])
      case Example => PayloadToken(payload, ["resource", "id"]);
    GetOr(OrElse(CooldownEntity(source, payload), fallback), "unknown")
  }

  function DeliveryHeader(source: Source): string {
    match source
    case Github => "X-GitHub-Delivery"
    case Linear => "Linear-Delivery"
    case Example => "X-Example-Delivery"
  }

  function PrintDedupKey(source: Source, delivery: string, action: string, entity: string): string {
    Name(source) + ":" + delivery + ":" + action + ":" + entity
  }

  function DedupKey(source: Source, headers: Headers, payload: Value): Result<string, ValidationError> {
    match HeaderValue(headers, DeliveryHeader(source))
    case None => Err(BadRequest("missing " + DeliveryHeader(source)))
    case Some(delivery) =>
      Ok(PrintDedupKey(source, delivery, GetOr(PayloadToken(payload, ["action"]), "unknown"),
                       DedupEntity(source, payload)))
  }

  function SlashToDash(s: string): string {
    if s == "" then "" else [if s[0] == '/' then '-' else s[0]] + SlashToDash(s[1..])
  }

  function CooldownScope(source: Source, payload: Value): Option<string> {
    match source
    case Github =>
      (match PayloadToken(payload, ["repository", "full_name"])
       case Some(repo) => Some(SlashToDash(repo))
       case None => None)
    case Linear => PayloadToken(payload, ["data", "team", "key"])
    case Example =>
      OrElse(PayloadToken(payload, ["scope"]),
             OrElse(PayloadToken(payload, ["tenant"]), PayloadToken(payload, ["project", "id"])))
  }

  function PrintCooldownKey(source: Source, scope: string, entity: string): string {
    "cooldown-" + Name(source) + "-" + scope + "-" + entity
  }

  function CooldownKey(source: Source, payload: Value): Option<string> {
    match CooldownScope(source, payload)
    case None => None
    case Some(scope) =>
      (match CooldownEntity(source, payload)
       case None => None
       case Some(entity) => Some(PrintCooldownKey(source, scope, entity)))
  }

  // ----- Key spaces -----

  predicate OwnsDedupKey(source: Source, key: string) { StartsWith(key, Name(source) + ":") }

  predicate OwnsCooldownKey(source: Source, key: string) { StartsWith(key, "cooldown-" + Name(source) + "-") }

  lemma {:induction false} PrintedDedupKeyOwned(source: Source, delivery: string, action: string, entity: string)
    ensures OwnsDedupKey(source, PrintDedupKey(source, delivery, action, entity))
  {
    var prefix := Name(source) + ":";
    assert PrintDedupKey(source, delivery, action, entity) == prefix + (delivery + ":" + action + ":" + entity);
  }

  lemma {:induction false} PrintedCooldownKeyOwned(source: Source, scope: string, entity: string)
    ensures OwnsCooldownKey(source, PrintCooldownKey(source, scope, entity))
  {
    var prefix := "cooldown-" + Name(source) + "-";
    assert PrintCooldownKey(source, scope, entity) == prefix + (scope + "-" + entity);
  }

  /** The keys a request produces lie in its own source's key space. */
  lemma {:induction false} KeysAreOwned(source: Source, headers: Headers, payload: Value)
    ensures var key := DedupKey(source, headers, payload);
            key.Ok? ==> OwnsDedupKey(source, key.value)
    ensures var key := CooldownKey(source, payload);
            key.Some? ==> OwnsCooldownKey(source, key.value)
  {
    var delivery := HeaderValue(headers, DeliveryHeader(source));
    if delivery.Some? {
      PrintedDedupKeyOwned(source, delivery.value, GetOr(PayloadToken(payload, ["action"]), "unknown"),
                           DedupEntity(source, payload));
    }
    var scope, entity := CooldownScope(source, payload), CooldownEntity(source, payload);
    if scope.Some? && entity.Some? {
      PrintedCooldownKeyOwned(source, scope.value, entity.value);
    }
  }

  /** No key belongs to two sources. */
  lemma {:induction false} KeySpacesDisjoint(a: Source, b: Source, key: string)
    requires a != b
    ensures !(OwnsDedupKey(a, key) && OwnsDedupKey(b, key))
    ensures !(OwnsCooldownKey(a, key) && OwnsCooldownKey(b, key))
  {
    if OwnsDedupKey(a, key) {
      assert key[0] == (Name(a) + ":")[0];
    }
    if OwnsDedupKey(b, key) {
      assert key[0] == (Name(b) + ":")[0];
    }
    CooldownKeyMark(a, key);
    CooldownKeyMark(b, key);
  }

  lemma {:induction false} CooldownKeyMark(source: Source, key: string)
    ensures OwnsCooldownKey(source, key) ==> |key| > 9 && key[9] == Name(source)[0]
  {
    var prefix := "cooldown-" + Name(source) + "-";
    if OwnsCooldownKey(source, key) {
      assert key[9] == prefix[9];
    }
  }
}
