/** JSON values as the pipeline sees them, after parsing. */
module Json {
  import opened Wrappers
  import opened Text
  import opened Decimal

  /** Integers lie between the least signed and the greatest unsigned 64-bit number. */
  datatype Num = Integer(value: int) | Fraction(digits: string)

  datatype Value =
    | Null
    | Bool(flag: bool)
    | Number(number: Num)
    | Str(text: string)
    | Array(items: seq<Value>)
    | Object(members: seq<Member>)

  /** Members are kept in the order of the underlying sorted map. */
  datatype Member = Member(key: string, value: Value)

  function Find(members: seq<Member>, key: string): Option<Value> {
    if members == [] then None
    else if members[0].key == key then Some(members[0].value)
    else Find(members[1..], key)
  }

  /** `Value::get` with a string key. */
  function Get(value: Value, key: string): Option<Value> {
    if value.Object? then Find(value.members, key) else None
  }

  /** `Map::insert`: replace the value of a present key, else insert the key at its place. */
  function Put(members: seq<Member>, key: string, value: Value): seq<Member> {
    if members == [] then [Member(key, value)]
    else if members[0].key == key then [Member(key, value)] + members[1..]
    else if Less(key, members[0].key) then [Member(key, value)] + members
    else [members[0]] + Put(members[1..], key, value)
  }

  lemma {:induction false} PutFinds(members: seq<Member>, key: string, value: Value)
    ensures Find(Put(members, key, value), key) == Some(value)
    ensures forall other :: other != key ==> Find(Put(members, key, value), other) == Find(members, other)
  {
    if members != [] {
      PutFinds(members[1..], key, value);
    }
  }

  // ----- JSON pointers, section 4 of RFC 6901 -----

  /** Unescape one reference token: `~1` is `/`, then `~0` is `~`. */
  function Unescape(token: string): string {
    Replace(Replace(token, '1', '/'), '0', '~')
  }

  /** Replace every `~` followed by `code` by `c`, left to right. */
  function Replace(s: string, code: char, c: char): string {
    if |s| >= 2 && s[0] == '~' && s[1] == code then [c] + Replace(s[2..], code, c)
    else if s == "" then ""
    else [s[0]] + Replace(s[1..], code, c)
  }

  function Step(value: Value, token: string): Option<Value> {
    match value
    case Object(members) => Find(members, token)
    case Array(items) =>
      (match ParseIndex(token)
       case Some(index) => if index < |items| then Some(items[index]) else None
       case None => None)
    case _ => None
  }

  function Follow(value: Value, tokens: seq<string>): Option<Value>
    decreases |tokens|
  {
    if tokens == [] then Some(value)
    else
      match Step(value, Unescape(tokens[0]))
      case Some(child) => Follow(child, tokens[1..])
      case None => None
  }

  /** `Value::pointer`. */
  function Pointer(value: Value, pointer: string): Option<Value> {
    if pointer == "" then Some(value)
    else if pointer[0] != '/' then None
    else Follow(value, Split(pointer, '/')[1..])
  }

  // ----- Sorted maps -----

  function KeysOf(members: seq<Member>): (keys: seq<string>)
    ensures |keys| == |members| && forall i :: 0 <= i < |keys| ==> keys[i] == members[i].key
  {
    seq(|members|, i requires 0 <= i < |members| => members[i].key)
  }

  /** Inserting keeps the keys in the map's order. */
  lemma {:induction false} PutInsertsKey(members: seq<Member>, key: string, value: Value)
    ensures KeysOf(Put(members, key, value)) == InsertSorted(KeysOf(members), key)
  {
    if members == [] {
      assert KeysOf(members) == [] && KeysOf(Put(members, key, value)) == [key];
    } else {
      var head, tail := members[0], members[1..];
      assert KeysOf(members)[1..] == KeysOf(tail) && KeysOf(members)[0] == head.key;
      if head.key == key {
        KeysCons(Member(key, value), tail);
        KeysCons(head, tail);
        assert members == [head] + tail;
      } else if Less(key, head.key) {
        KeysCons(Member(key, value), members);
      } else {
        PutInsertsKey(tail, key, value);
        KeysCons(head, Put(tail, key, value));
      }
    }
  }

  lemma {:induction false} KeysCons(head: Member, tail: seq<Member>)
    ensures KeysOf([head] + tail) == [head.key] + KeysOf(tail)
  {}
}
