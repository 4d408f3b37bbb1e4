/** The keys and event types of the built-in sources, header by header and field by field. */
module SourceLaws {
  import opened Wrappers
  import opened Text
  import opened Json
  import opened Decimal
  import opened Sources

  /** The name a source has in paths, keys, topics and envelopes. */
  ghost predicate Named(source: Source, name: string) {
    match source
    case Github => name == "github"
    case Linear => name == "linear"
    case Example => name == "example"
  }

  // ----- Tokens -----

  /** A member at the top level counts if it is a non-blank string, trimmed, or an integer, in decimal. */
  lemma {:induction false} TokenOfMember(payload: Value, key: string)
    ensures PayloadToken(payload, [key]) ==
            match Get(payload, key)
            case Some(Str(text)) => (if Trim(text) == "" then None else Some(Trim(text)))
            case Some(Number(Integer(n))) => Some(if n < 0 then "-" + Print(-n) else Print(n))
            case _ => None
  {
    var path := [key];
    assert path[1..] == [] && path[0] == key;
    match Get(payload, key) {
      case Some(child) =>
        assert Descend(child, path[1..]) == Some(child);
        assert Descend(payload, path) == Some(child);
      case None =>
        assert Descend(payload, path) == None;
    }
  }

  /** A deeper path is read inside the member it starts with. */
  lemma {:induction false} TokenBelow(payload: Value, key: string, path: seq<string>)
    requires path != []
    ensures PayloadToken(payload, [key] + path) ==
            match Get(payload, key) case Some(child) => PayloadToken(child, path) case None => None
  {
    assert ([key] + path)[1..] == path;
  }

  /** `token` is what the first of the paths that has one holds. */
  ghost predicate IsFirst(payload: Value, paths: seq<seq<string>>, token: Option<string>) {
    if token.Some? then
      exists i :: 0 <= i < |paths| && PayloadToken(payload, paths[i]) == token
                  && forall j :: 0 <= j < i ==> PayloadToken(payload, paths[j]) == None
    else forall i :: 0 <= i < |paths| ==> PayloadToken(payload, paths[i]) == None
  }

  /** One more path in front. */
  lemma {:induction false} FirstCons(payload: Value, path: seq<string>, paths: seq<seq<string>>, token: Option<string>)
    requires IsFirst(payload, paths, token)
    ensures IsFirst(payload, [path] + paths, OrElse(PayloadToken(payload, path), token))
  {
    var all, here := [path] + paths, PayloadToken(payload, path);
    if here.Some? {
      assert all[0] == path;
    } else if token.Some? {
      var i :| 0 <= i < |paths| && PayloadToken(payload, paths[i]) == token
               && forall j :: 0 <= j < i ==> PayloadToken(payload, paths[j]) == None;
      assert all[i + 1] == paths[i];
      forall j | 0 <= j < i + 1
        ensures PayloadToken(payload, all[j]) == None
      {
        if j > 0 {
          assert all[j] == paths[j - 1];
        }
      }
    } else {
      forall i | 0 <= i < |all|
        ensures PayloadToken(payload, all[i]) == None
      {
        if i > 0 {
          assert all[i] == paths[i - 1];
        }
      }
    }
  }

  lemma {:induction false} FirstOfTwo(payload: Value, a: seq<string>, b: seq<string>)
    ensures IsFirst(payload, [a] + ([b] + []), OrElse(PayloadToken(payload, a), PayloadToken(payload, b)))
  {
    FirstCons(payload, b, [], None);
    assert OrElse(PayloadToken(payload, b), None) == PayloadToken(payload, b);
    FirstCons(payload, a, [b] + [], PayloadToken(payload, b));
  }

  lemma {:induction false} FirstOfThree(payload: Value, a: seq<string>, b: seq<string>, c: seq<string>)
    ensures IsFirst(payload, [a] + ([b] + ([c] + [])),
                    OrElse(PayloadToken(payload, a), OrElse(PayloadToken(payload, b), PayloadToken(payload, c))))
  {
    FirstOfTwo(payload, b, c);
    FirstCons(payload, a, [b] + ([c] + []), OrElse(PayloadToken(payload, b), PayloadToken(payload, c)));
  }

  // ----- Cooldown keys -----

  /** The entity of a cooldown is the first of these fields. */
  lemma {:induction false} CooldownEntities(payload: Value)
    ensures IsFirst(payload, [["pull_request", "number"]] + ([["issue", "number"]] + ([["number"]] + [])),
                    CooldownEntity(Github, payload))
    ensures IsFirst(payload, [["data", "id"]] + ([["data", "identifier"]] + []), CooldownEntity(Linear, payload))
    ensures IsFirst(payload, [["data", "id"]] + ([["id"]] + []), CooldownEntity(Example, payload))
  {
    FirstOfThree(payload, ["pull_request", "number"], ["issue", "number"], ["number"]);
    FirstOfTwo(payload, ["data", "id"], ["data", "identifier"]);
    FirstOfTwo(payload, ["data", "id"], ["id"]);
  }

  lemma {:induction false} CooldownScopes(payload: Value)
    ensures var repository := PayloadToken(payload, ["repository", "full_name"]);
            && (repository == None ==> CooldownScope(Github, payload) == None)
            && (repository.Some? ==>
                  && CooldownScope(Github, payload).Some?
                  && Dashes(repository.value, CooldownScope(Github, payload).value))
    ensures CooldownScope(Linear, payload) == PayloadToken(payload, ["data", "team", "key"])
    ensures IsFirst(payload, [["scope"]] + ([["tenant"]] + ([["project", "id"]] + [])), CooldownScope(Example, payload))
  {
    var repository := PayloadToken(payload, ["repository", "full_name"]);
    if repository.Some? {
      SlashesBecomeDashes(repository.value);
    }
    FirstOfThree(payload, ["scope"], ["tenant"], ["project", "id"]);
  }

  /** `t` is `s` with a dash for every slash. */
  ghost predicate Dashes(s: string, t: string) {
    |s| == |t| && forall i :: 0 <= i < |s| ==> t[i] == if s[i] == '/' then '-' else s[i]
  }

  lemma {:induction false} SlashesBecomeDashes(s: string)
    ensures Dashes(s, SlashToDash(s))
  {
    if s != "" {
      SlashesBecomeDashes(s[1..]);
    }
  }

  /** A cooldown key needs a scope and an entity and is made of the source's name and both. */
  lemma {:induction false} CooldownKeyExact(source: Source, payload: Value, name: string)
    requires Named(source, name)
    ensures var scope, entity := CooldownScope(source, payload), CooldownEntity(source, payload);
            CooldownKey(source, payload) ==
            if scope.Some? && entity.Some?
            then Some("cooldown-" + name + "-" + scope.value + "-" + entity.value) else None
  {}

  // ----- Deduplication keys -----

  /** The header that carries a source's delivery id. */
  ghost predicate DeliveryIn(source: Source, header: string) {
    match source
    case Github => header == "X-GitHub-Delivery"
    case Linear => header == "Linear-Delivery"
    case Example => header == "X-Example-Delivery"
  }

  /** The fields a deduplication key falls back to when there is no cooldown entity. */
  lemma {:induction false} DedupEntities(payload: Value)
    ensures CooldownEntity(Github, payload) == None ==>
              exists token ::
                && IsFirst(payload, [["comment", "id"]] + ([["review", "id"]] + ([["repository", "id"]] + [])), token)
                && DedupEntity(Github, payload) == if token.Some? then token.value else "unknown"
    ensures CooldownEntity(Linear, payload) == None ==>
              var token := PayloadToken(payload, ["webhookId"]);
              DedupEntity(Linear, payload) == if token.Some? then token.value else "unknown"
    ensures CooldownEntity(Example, payload) == None ==>
              var token := PayloadToken(payload, ["resource", "id"]);
              DedupEntity(Example, payload) == if token.Some? then token.value else "unknown"
    ensures forall source :: CooldownEntity(source, payload).Some? ==>
              DedupEntity(source, payload) == CooldownEntity(source, payload).value
  {
    FirstOfThree(payload, ["comment", "id"], ["review", "id"], ["repository", "id"]);
  }

  /** The key is the source, the delivery id, the action and the entity; without a delivery id there is none. */
  lemma {:induction false} DedupKeyExact(
    source: Source, headers: Headers, payload: Value, name: string, header: string)
    requires Named(source, name) && DeliveryIn(source, header)
    ensures var action := PayloadToken(payload, ["action"]);
            if header !in headers || Trim(headers[header]) == "" then DedupKey(source, headers, payload).Err?
            else DedupKey(source, headers, payload) ==
                 Ok(name + ":" + Trim(headers[header]) + ":"
                    + (if action.Some? then action.value else "unknown") + ":" + DedupEntity(source, payload))
  {}

  // ----- Event types -----

  ghost predicate HeaderIs(headers: Headers, name: string, value: string) {
    value != "" && name in headers && Trim(headers[name]) == value
  }

  ghost predicate HeaderMissing(headers: Headers, name: string) { name !in headers || Trim(headers[name]) == "" }

  /** GitHub: the event header, and the payload's action after a dot. */
  lemma {:induction false} GithubEventType(headers: Headers, payload: Value, event: string)
    ensures HeaderMissing(headers, "X-GitHub-Event") ==> EventType(Github, headers, payload).Err?
    ensures HeaderIs(headers, "X-GitHub-Event", event) ==>
              EventType(Github, headers, payload) ==
              match Get(payload, "action")
              case Some(Str(text)) => (if Trim(text) == "" then Ok(event) else Ok(event + "." + Trim(text)))
              case _ => Ok(event)
  {}

  /** Linear: the payload's type, else the event header, and the action, all in lower case. */
  lemma {:induction false} LinearEventType(headers: Headers, payload: Value, kind: string)
    requires || (Get(payload, "type") == Some(Str(kind)) && Trim(kind) == kind != "")
             || (TextField(payload, "type") == None && HeaderIs(headers, "Linear-Event", kind))
    ensures EventType(Linear, headers, payload) ==
            match Get(payload, "action")
            case Some(Str(text)) =>
              (if Trim(text) == "" then Ok(ToLower(kind)) else Ok(ToLower(kind) + "." + ToLower(Trim(text))))
            case _ => Ok(ToLower(kind))
  {}

  lemma {:induction false} LinearWithoutType(headers: Headers, payload: Value)
    requires TextField(payload, "type") == None && HeaderMissing(headers, "Linear-Event")
    ensures EventType(Linear, headers, payload).Err?
  {}

  /** Example: the event header, else the payload's event_type or type, and the action, all in lower case. */
  lemma {:induction false} ExampleEventType(headers: Headers, payload: Value)
    ensures var action := PayloadToken(payload, ["action"]);
            var suffix := if action.Some? then "." + ToLower(action.value) else "";
            if !HeaderMissing(headers, "X-Example-Event") then
              EventType(Example, headers, payload) == Ok(ToLower(Trim(headers["X-Example-Event"])) + suffix)
            else
              exists kind :: IsFirst(payload, [["event_type"]] + ([["type"]] + []), kind)
                && (kind.Some? ==> EventType(Example, headers, payload) == Ok(ToLower(kind.value) + suffix))
                && (kind.None? ==> EventType(Example, headers, payload).Err?)
  {
    FirstOfTwo(payload, ["event_type"], ["type"]);
    var kind := OrElse(PayloadToken(payload, ["event_type"]), PayloadToken(payload, ["type"]));
    assert IsFirst(payload, [["event_type"]] + ([["type"]] + []), kind);
    var action := PayloadToken(payload, ["action"]);
    if action.Some? {
      forall event: string
        ensures event + "." + ToLower(action.value) == event + ("." + ToLower(action.value))
      {}
    } else {
      forall event: string
        ensures event + "" == event
      {}
    }
  }

  // ----- Lower case -----

  /** Lower case changes exactly the letters A to Z, each into its own small letter. */
  lemma {:induction false} LowerExact(s: string)
    ensures |ToLower(s)| == |s|
    ensures forall i :: 0 <= i < |s| ==>
              if 'A' <= s[i] <= 'Z' then ToLower(s)[i] as int - 'a' as int == s[i] as int - 'A' as int
              else ToLower(s)[i] == s[i]
  {
    if s != "" {
      LowerExact(s[1..]);
    }
  }
}
