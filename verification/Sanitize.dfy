/**
  The payload sanitizer: every string leaf of more than ten bytes is scanned, and the
  leaves that hit a pattern are reported by path.
 */
module Sanitize {
  import opened Wrappers
  import opened Text
  import opened Arithmetic
  import opened Decimal
  import opened Json

  const MIN_SCANNED_BYTES := 10
  const DOT := '.'

  // ----- Values as labelled trees -----

  function Kids(value: Value): (kids: seq<Value>)
    ensures forall i :: 0 <= i < |kids| ==> kids[i] < value
  {
    match value
    case Array(items) => items
    case Object(members) => seq(|members|, i requires 0 <= i < |members| => members[i].value)
    case _ => []
  }

  function Label(value: Value, i: nat): string
    requires i < |Kids(value)|
  {
    match value
    case Object(members) => members[i].key
    case _ => Print(i)
  }

  /** A place in a value: the child numbers on the way to it. */
  type Place = seq<nat>

  function At(value: Value, place: Place): Option<Value>
    decreases |place|
  {
    if place == [] then Some(value)
    else if place[0] < |Kids(value)| then At(Kids(value)[place[0]], place[1..])
    else None
  }

  /** Document order: compare the child numbers from the root down. */
  ghost predicate Before(a: Place, b: Place)
    decreases |a|
  {
    && b != []
    && (a == [] || a[0] < b[0] || (a[0] == b[0] && Before(a[1..], b[1..])))
  }

  predicate Scanned(value: Value) {
    value.Str? && Utf8Length(value.text) > MIN_SCANNED_BYTES
  }

  // ----- The traversal -----

  function Under(i: nat, places: seq<Place>): (r: seq<Place>)
    ensures |r| == |places|
    ensures forall j :: 0 <= j < |r| ==> r[j] == [i] + places[j]
  {
    seq(|places|, j requires 0 <= j < |places| => [i] + places[j])
  }

  /** The scanned leaves in the order the source visits them. */
  function Leaves(value: Value): seq<Place>
    decreases value, 1
  {
    if Scanned(value) then [[]] else LeavesFrom(value, 0)
  }

  function LeavesFrom(value: Value, i: nat): seq<Place>
    requires i <= |Kids(value)|
    decreases value, 0, |Kids(value)| - i
  {
    if i == |Kids(value)| then []
    else Under(i, Leaves(Kids(value)[i])) + LeavesFrom(value, i + 1)
  }

  function ExtendPath(path: string, name: string): string {
    if path == "" then name else path + [DOT] + name
  }

  /** The dotted path the source builds on the way to `place`. */
  function PathTo(value: Value, place: Place, path: string): string
    decreases |place|
  {
    if place == [] || place[0] >= |Kids(value)| then path
    else PathTo(Kids(value)[place[0]], place[1..], ExtendPath(path, Label(value, place[0])))
  }

  function TextAt(value: Value, place: Place): string {
    match At(value, place)
    case Some(Str(text)) => text
    case _ => ""
  }

  datatype Found = Found(path: string, text: string)

  function FoundAt(value: Value, places: seq<Place>, path: string): (found: seq<Found>)
    ensures |found| == |places|
    ensures forall j :: 0 <= j < |places| ==>
              found[j] == Found(PathTo(value, places[j], path), TextAt(value, places[j]))
  {
    seq(|places|, j requires 0 <= j < |places| => Found(PathTo(value, places[j], path), TextAt(value, places[j])))
  }

  /** Exactly the string leaves of more than ten bytes are visited. */
  lemma {:induction false} LeavesExact(value: Value, place: Place)
    ensures place in Leaves(value) <==>
            At(value, place).Some? && At(value, place).value.Str? && Utf8Length(At(value, place).value.text) > 10
    decreases value, 1
  {
    if Scanned(value) {
      assert Kids(value) == [];
    } else {
      LeavesFromExact(value, 0, place);
    }
  }

  lemma {:induction false} InUnder(i: nat, places: seq<Place>, place: Place)
    ensures place in Under(i, places) <==> place != [] && place[0] == i && place[1..] in places
  {
    if place in Under(i, places) {
      var j :| 0 <= j < |places| && Under(i, places)[j] == place;
      assert place[1..] == places[j];
    }
    if place != [] && place[0] == i && place[1..] in places {
      var j :| 0 <= j < |places| && places[j] == place[1..];
      assert Under(i, places)[j] == [i] + place[1..] == place;
    }
  }

  lemma {:induction false} LeavesFromExact(value: Value, i: nat, place: Place)
    requires i <= |Kids(value)|
    ensures place in LeavesFrom(value, i) <==>
            && place != [] && place[0] >= i
            && At(value, place).Some? && Scanned(At(value, place).value)
    decreases value, 0, |Kids(value)| - i
  {
    if i < |Kids(value)| {
      var kid := Kids(value)[i];
      LeavesFromExact(value, i + 1, place);
      InUnder(i, Leaves(kid), place);
      if place != [] && place[0] == i {
        LeavesExact(kid, place[1..]);
      }
    }
  }

  /** Strictly increasing in document order, so each leaf is visited once. */
  ghost predicate InDocumentOrder(places: seq<Place>) {
    forall i, j :: 0 <= i < j < |places| ==> Before(places[i], places[j])
  }

  lemma {:induction false} LeavesOrdered(value: Value)
    ensures InDocumentOrder(Leaves(value))
    decreases value, 1
  {
    if !Scanned(value) {
      LeavesFromOrdered(value, 0);
    }
  }

  lemma {:induction false} LeavesFromOrdered(value: Value, i: nat)
    requires i <= |Kids(value)|
    ensures InDocumentOrder(LeavesFrom(value, i))
    ensures forall p :: p in LeavesFrom(value, i) ==> p != [] && p[0] >= i
    decreases value, 0, |Kids(value)| - i
  {
    if i < |Kids(value)| {
      LeavesOrdered(Kids(value)[i]);
      LeavesFromOrdered(value, i + 1);
      var here, rest := Under(i, Leaves(Kids(value)[i])), LeavesFrom(value, i + 1);
      assert InDocumentOrder(here) by {
        forall a, b | 0 <= a < b < |here|
          ensures Before(here[a], here[b])
        {
          assert here[a][1..] == Leaves(Kids(value)[i])[a];
          assert here[b][1..] == Leaves(Kids(value)[i])[b];
        }
      }
      AppendOrdered(i, here, rest);
    }
  }

  lemma {:induction false} AppendOrdered(i: nat, here: seq<Place>, rest: seq<Place>)
    requires InDocumentOrder(here) && InDocumentOrder(rest)
    requires forall p :: p in here ==> p != [] && p[0] == i
    requires forall p :: p in rest ==> p != [] && p[0] > i
    ensures InDocumentOrder(here + rest)
  {
    forall a, b | 0 <= a < |here| && 0 <= b < |rest|
      ensures Before(here[a], rest[b])
    {
      assert here[a] in here && rest[b] in rest;
    }
  }

  // ----- The source's recursion, appending to an output list -----

  /** Appends every scanned leaf under its path, in document order. */
  method ExtractAllStrings(value: Value, path: string, acc: seq<Found>) returns (out: seq<Found>)
    ensures out == acc + FoundAt(value, Leaves(value), path)
    decreases value, 1
  {
    if value.Str? {
      FoundInString(value, path);
      out := acc;
      if Utf8Length(value.text) > MIN_SCANNED_BYTES {
        out := out + [Found(path, value.text)];
      }
    } else {
      out := ExtractFromKids(value, path, acc);
    }
  }

  method ExtractFromKids(value: Value, path: string, acc: seq<Found>) returns (out: seq<Found>)
    ensures out == acc + FoundAt(value, LeavesFrom(value, 0), path)
    decreases value, 0
  {
    out := acc;
    ghost var all := acc + FoundAt(value, LeavesFrom(value, 0), path);
    for i := 0 to |Kids(value)|
      invariant all == out + FoundAt(value, LeavesFrom(value, i), path)
    {
      var nextPath := ExtendPath(path, Label(value, i));
      FoundAfter(value, i, path, nextPath, out);
      out := ExtractAllStrings(Kids(value)[i], nextPath, out);
    }
  }

  lemma {:induction false} FoundInString(value: Value, path: string)
    requires value.Str?
    ensures FoundAt(value, Leaves(value), path) == if Scanned(value) then [Found(path, value.text)] else []
  {
    assert Kids(value) == [];
  }

  lemma {:induction false} FoundStep(value: Value, i: nat, path: string)
    requires i < |Kids(value)|
    ensures FoundAt(value, LeavesFrom(value, i), path) ==
            FoundAt(Kids(value)[i], Leaves(Kids(value)[i]), ExtendPath(path, Label(value, i)))
            + FoundAt(value, LeavesFrom(value, i + 1), path)
  {
    var places := Leaves(Kids(value)[i]);
    FoundConcat(value, Under(i, places), LeavesFrom(value, i + 1), path);
    FoundUnder(value, i, places, path);
  }

  lemma {:induction false} FoundAfter(value: Value, i: nat, path: string, nextPath: string, acc: seq<Found>)
    requires i < |Kids(value)| && nextPath == ExtendPath(path, Label(value, i))
    ensures acc + FoundAt(value, LeavesFrom(value, i), path) ==
            (acc + FoundAt(Kids(value)[i], Leaves(Kids(value)[i]), nextPath))
            + FoundAt(value, LeavesFrom(value, i + 1), path)
  {
    FoundStep(value, i, path);
    Reassociate(acc, FoundAt(Kids(value)[i], Leaves(Kids(value)[i]), nextPath),
                FoundAt(value, LeavesFrom(value, i + 1), path));
  }

  lemma {:induction false} Reassociate(a: seq<Found>, b: seq<Found>, c: seq<Found>)
    ensures (a + b) + c == a + (b + c)
  {}

  lemma {:induction false} FoundConcat(value: Value, a: seq<Place>, b: seq<Place>, path: string)
    ensures FoundAt(value, a + b, path) == FoundAt(value, a, path) + FoundAt(value, b, path)
  {}

  lemma {:induction false} FoundUnder(value: Value, i: nat, places: seq<Place>, path: string)
    requires i < |Kids(value)|
    ensures FoundAt(value, Under(i, places), path) ==
            FoundAt(Kids(value)[i], places, ExtendPath(path, Label(value, i)))
  {
    forall j | 0 <= j < |places|
      ensures TextAt(value, Under(i, places)[j]) == TextAt(Kids(value)[i], places[j])
      ensures PathTo(value, Under(i, places)[j], path) ==
              PathTo(Kids(value)[i], places[j], ExtendPath(path, Label(value, i)))
    {
      assert Under(i, places)[j][1..] == places[j];
    }
  }

  // ----- Reporting -----

  /** One injection pattern, seen as the test whether it occurs in a text. */
  type Pattern = string -> bool

  /** How many patterns occur in the text. */
  function HitCount(patterns: seq<Pattern>, text: string): nat {
    if patterns == [] || text == "" then 0
    else HitCount(patterns[..|patterns| - 1], text) + if patterns[|patterns| - 1](text) then 1 else 0
  }

  /** The patterns that occur in the text. */
  ghost function Hitting(patterns: seq<Pattern>, text: string): set<nat> {
    set i | 0 <= i < |patterns| && patterns[i](text)
  }

  /** The count is the number of patterns that occur. */
  lemma {:induction false} HitCountExact(patterns: seq<Pattern>, text: string)
    requires text != ""
    ensures HitCount(patterns, text) == |Hitting(patterns, text)|
    ensures HitCount(patterns, text) > 0 <==> exists i :: 0 <= i < |patterns| && patterns[i](text)
  {
    if patterns == [] {
      assert Hitting(patterns, text) == {};
    } else {
      var n := |patterns| - 1;
      HitCountExact(patterns[..n], text);
      var here: set<nat> := if patterns[n](text) then {n} else {};
      assert Hitting(patterns, text) == Hitting(patterns[..n], text) + here;
      if i :| 0 <= i < |patterns| && patterns[i](text) {
        assert i in Hitting(patterns, text);
      }
    }
  }

  datatype Hit = Hit(path: string, count: nat)

  function Hits(patterns: seq<Pattern>, found: seq<Found>): seq<Hit> {
    if found == [] then []
    else
      var last := found[|found| - 1];
      var count := HitCount(patterns, last.text);
      Hits(patterns, found[..|found| - 1]) + if count == 0 then [] else [Hit(last.path, count)]
  }

  /** The scanned leaves with at least one hit, in document order. */
  function HitPlaces(patterns: seq<Pattern>, value: Value, places: seq<Place>): seq<Place> {
    if places == [] then []
    else
      var last := places[|places| - 1];
      HitPlaces(patterns, value, places[..|places| - 1])
      + if HitCount(patterns, TextAt(value, last)) == 0 then [] else [last]
  }

  function HitAt(patterns: seq<Pattern>, value: Value, place: Place): Hit {
    Hit(PathTo(value, place, ""), HitCount(patterns, TextAt(value, place)))
  }

  lemma {:induction false} HitsAreHitPlaces(patterns: seq<Pattern>, value: Value, places: seq<Place>)
    ensures var hits := Hits(patterns, FoundAt(value, places, ""));
            var hit := HitPlaces(patterns, value, places);
            |hits| == |hit| && forall j :: 0 <= j < |hit| ==> hits[j] == HitAt(patterns, value, hit[j])
  {
    if places != [] {
      var n := |places| - 1;
      HitsAreHitPlaces(patterns, value, places[..n]);
      assert FoundAt(value, places, "")[..n] == FoundAt(value, places[..n], "");
    }
  }

  lemma {:induction false} HitPlacesExact(patterns: seq<Pattern>, value: Value, places: seq<Place>, p: Place)
    ensures p in HitPlaces(patterns, value, places) <==>
            p in places && HitCount(patterns, TextAt(value, p)) > 0
  {
    if places != [] {
      var n := |places| - 1;
      HitPlacesExact(patterns, value, places[..n], p);
      assert places == places[..n] + [places[n]];
    }
  }

  lemma {:induction false} HitPlacesOrdered(patterns: seq<Pattern>, value: Value, places: seq<Place>)
    requires InDocumentOrder(places)
    ensures InDocumentOrder(HitPlaces(patterns, value, places))
  {
    if places != [] {
      var n := |places| - 1;
      HitPlacesOrdered(patterns, value, places[..n]);
      forall p | p in HitPlaces(patterns, value, places[..n])
        ensures Before(p, places[n])
      {
        HitPlacesExact(patterns, value, places[..n], p);
        var j :| 0 <= j < n && places[..n][j] == p;
        assert places[j] == p;
      }
    }
  }

  /** Keep the texts that some pattern hits, with their counts. */
  method Detect(patterns: seq<Pattern>, strings: seq<Found>) returns (hits: seq<Hit>)
    ensures hits == Hits(patterns, strings)
  {
    hits := [];
    for i := 0 to |strings|
      invariant hits == Hits(patterns, strings[..i])
    {
      assert strings[..i + 1][..i] == strings[..i];
      var count := HitCount(patterns, strings[i].text);
      if count != 0 {
        hits := hits + [Hit(strings[i].path, count)];
      }
    }
    assert strings[..|strings|] == strings;
  }

  method FindAllHits(patterns: seq<Pattern>, payload: Value) returns (hits: seq<Hit>)
    ensures hits == Hits(patterns, FoundAt(payload, Leaves(payload), ""))
  {
    var strings := ExtractAllStrings(payload, "", []);
    assert strings == FoundAt(payload, Leaves(payload), "");
    hits := Detect(patterns, strings);
  }

  function FlagValue(hit: Hit): Value {
    Object([Member("count", Number(Integer(hit.count))), Member("field", Str(hit.path))])
  }

  function FlagValues(hits: seq<Hit>): (values: seq<Value>)
    ensures |values| == |hits| && forall i :: 0 <= i < |hits| ==> values[i] == FlagValue(hits[i])
  {
    seq(|hits|, i requires 0 <= i < |hits| => FlagValue(hits[i]))
  }

  datatype SanitizeError = EmptySource | NotAnObject

  /** The sanitized object: the two reserved members set, everything else as it was. */
  function Sanitized(patterns: seq<Pattern>, source: string, payload: Value): Result<Value, SanitizeError> {
    if Trim(source) == "" then Err(EmptySource)
    else if !payload.Object? then Err(NotAnObject)
    else
      Ok(Object(Marked(payload.members, Hits(patterns, FoundAt(payload, Leaves(payload), "")))))
  }

  function Marked(members: seq<Member>, hits: seq<Hit>): seq<Member> {
    var marked := Put(members, "_sanitized", Bool(true));
    if hits == [] then marked else Put(marked, "_flags", Array(FlagValues(hits)))
  }

  method SanitizePayload(patterns: seq<Pattern>, source: string, payload: Value)
    returns (result: Result<Value, SanitizeError>)
    ensures result == Sanitized(patterns, source, payload)
  {
    if Trim(source) == "" {
      return Err(EmptySource);
    }
    var hits := FindAllHits(patterns, payload);
    if !payload.Object? {
      return Err(NotAnObject);
    }
    var members := Put(payload.members, "_sanitized", Bool(true));
    if hits != [] {
      members := Put(members, "_flags", Array(FlagValues(hits)));
    }
    return Ok(Object(members));
  }

  /** The leaves the report must name: strings of more than ten bytes in which some pattern occurs. */
  ghost predicate Suspicious(patterns: seq<Pattern>, payload: Value, place: Place) {
    && At(payload, place).Some?
    && At(payload, place).value.Str?
    && var text := At(payload, place).value.text;
    && Utf8Length(text) > 10
    && exists i :: 0 <= i < |patterns| && patterns[i](text)
  }

  /** The suspicious places are exactly the hit ones among the leaves, in document order. */
  lemma {:induction false} HitPlacesAreSuspicious(patterns: seq<Pattern>, payload: Value)
    ensures var places := HitPlaces(patterns, payload, Leaves(payload));
            && (forall p :: p in places <==> Suspicious(patterns, payload, p))
            && InDocumentOrder(places)
  {
    var leaves := Leaves(payload);
    LeavesOrdered(payload);
    HitPlacesOrdered(patterns, payload, leaves);
    forall p
      ensures p in HitPlaces(patterns, payload, leaves) <==> Suspicious(patterns, payload, p)
    {
      HitPlacesExact(patterns, payload, leaves, p);
      LeavesExact(payload, p);
      if p in leaves {
        HitCountExact(patterns, At(payload, p).value.text);
      }
    }
  }

  /** `flags` reports these places: one entry each, in order, with path and pattern count. */
  ghost predicate Reports(patterns: seq<Pattern>, payload: Value, places: seq<Place>, flags: Option<Value>) {
    && flags.Some? && flags.value.Array?
    && |flags.value.items| == |places|
    && forall j :: 0 <= j < |places| ==> Describes(patterns, payload, places[j], flags.value.items[j])
  }

  /** The entry holds the dotted path to the place and the number of patterns that occur there, and nothing else. */
  ghost predicate Describes(patterns: seq<Pattern>, payload: Value, place: Place, entry: Value) {
    && entry.Object? && |entry.members| == 2
    && Get(entry, "field") == Some(Str(PathTo(payload, place, "")))
    && Get(entry, "count") == Some(Number(Integer(|Hitting(patterns, TextAt(payload, place))|)))
  }

  /**
    `_flags` lists exactly the suspicious leaves, once each and in document order, with
    their paths and pattern counts; without any, `_flags` is whatever the input had.
    Every other member keeps its value.
   */
  lemma {:induction false} SanitizeReports(patterns: seq<Pattern>, source: string, payload: Value)
    returns (places: seq<Place>)
    requires Trim(source) != "" && payload.Object?
    ensures Sanitized(patterns, source, payload).Ok?
    ensures forall p :: p in places <==> Suspicious(patterns, payload, p)
    ensures InDocumentOrder(places)
    ensures var after := Sanitized(patterns, source, payload).value;
            && Get(after, "_sanitized") == Some(Bool(true))
            && (places == [] ==> Get(after, "_flags") == Get(payload, "_flags"))
            && (places != [] ==> Reports(patterns, payload, places, Get(after, "_flags")))
            && (forall key :: key != "_sanitized" && key != "_flags" ==> Get(after, key) == Get(payload, key))
  {
    HitPlacesAreSuspicious(patterns, payload);
    places := HitPlaces(patterns, payload, Leaves(payload));
    ReportHolds(patterns, payload);
    MarkedFinds(payload.members, Hits(patterns, FoundAt(payload, Leaves(payload), "")));
  }

  lemma {:induction false} ReportHolds(patterns: seq<Pattern>, payload: Value)
    ensures var places := HitPlaces(patterns, payload, Leaves(payload));
            var hits := Hits(patterns, FoundAt(payload, Leaves(payload), ""));
            && (hits == [] <==> places == [])
            && Reports(patterns, payload, places, Some(Array(FlagValues(hits))))
  {
    var places := HitPlaces(patterns, payload, Leaves(payload));
    HitsAreHitPlaces(patterns, payload, Leaves(payload));
    HitPlacesAreSuspicious(patterns, payload);
    forall j | 0 <= j < |places|
      ensures Describes(patterns, payload, places[j], FlagValue(HitAt(patterns, payload, places[j])))
    {
      assert places[j] in places;
      FlagDescribes(patterns, payload, places[j]);
    }
  }

  lemma {:induction false} FlagDescribes(patterns: seq<Pattern>, payload: Value, place: Place)
    requires Suspicious(patterns, payload, place)
    ensures Describes(patterns, payload, place, FlagValue(HitAt(patterns, payload, place)))
  {
    HitCountExact(patterns, TextAt(payload, place));
    var members := FlagValue(HitAt(patterns, payload, place)).members;
    assert members[1..][0] == members[1] && members[0].key == "count" && members[1].key == "field";
    assert Find(members[1..], "field") == Some(members[1].value);
  }

  lemma {:induction false} MarkedFinds(members: seq<Member>, hits: seq<Hit>)
    ensures var after := Marked(members, hits);
            && Find(after, "_sanitized") == Some(Bool(true))
            && Find(after, "_flags") == (if hits == [] then Find(members, "_flags") else Some(Array(FlagValues(hits))))
            && (forall key :: key != "_sanitized" && key != "_flags" ==> Find(after, key) == Find(members, key))
  {
    PutFinds(members, "_sanitized", Bool(true));
    PutFinds(Put(members, "_sanitized", Bool(true)), "_flags", Array(FlagValues(hits)));
  }

  // ----- Paths lead back -----

  /** The labels on the way to a place. */
  function Labels(value: Value, place: Place): seq<string>
    requires At(value, place).Some?
    decreases |place|
  {
    if place == [] then []
    else [Label(value, place[0])] + Labels(Kids(value)[place[0]], place[1..])
  }

  /** What a JSON map and a vector guarantee: distinct keys, and indices that fit 64 bits. */
  ghost predicate WellFormed(value: Value)
    decreases value
  {
    && (value.Object? ==> forall i, j :: 0 <= i < j < |value.members| ==> value.members[i].key != value.members[j].key)
    && (value.Array? ==> |value.items| <= U64_MAX)
    && forall i :: 0 <= i < |Kids(value)| ==> WellFormed(Kids(value)[i])
  }

  function KeyIndex(members: seq<Member>, key: string): (index: Option<nat>)
    ensures index.Some? ==> index.value < |members| && members[index.value].key == key
  {
    if members == [] then None
    else if members[0].key == key then Some(0)
    else
      match KeyIndex(members[1..], key)
      case Some(i) => Some(i + 1)
      case None => None
  }

  /** The child a label names: a member by its key, an item by its index as JSON pointers read it. */
  function ChildNamed(value: Value, name: string): (index: Option<nat>)
    ensures index.Some? ==> index.value < |Kids(value)|
  {
    match value
    case Object(members) => KeyIndex(members, name)
    case Array(items) =>
      (match ParseIndex(name)
       case Some(i) => if i < |items| then Some(i) else None
       case None => None)
    case _ => None
  }

  /** The place that a list of labels leads to from the root. */
  function PlaceOf(value: Value, labels: seq<string>): Option<Place>
    decreases |labels|
  {
    if labels == [] then Some([])
    else
      match ChildNamed(value, labels[0])
      case None => None
      case Some(i) =>
        match PlaceOf(Kids(value)[i], labels[1..])
        case None => None
        case Some(place) => Some([i] + place)
  }

  lemma {:induction false} KeyFound(members: seq<Member>, i: nat)
    requires i < |members|
    requires forall a, b :: 0 <= a < b < |members| ==> members[a].key != members[b].key
    ensures KeyIndex(members, members[i].key) == Some(i)
  {
    if i > 0 {
      assert members[0].key != members[i].key;
      KeyFound(members[1..], i - 1);
    }
  }

  /** In a well-formed value a name leads to a child exactly when it is the child's label. */
  lemma {:induction false} NamedByLabel(value: Value, name: string, i: nat)
    requires WellFormed(value) && i < |Kids(value)|
    ensures ChildNamed(value, name) == Some(i) <==> name == Label(value, i)
  {
    if value.Object? {
      KeyFound(value.members, i);
    } else if ParseIndex(name) == Some(i) {
      PrintFromDigits(name);
    }
  }

  /** A list of labels leads to a place exactly when they are the labels on the way to it. */
  lemma {:induction false} PlacedByLabels(value: Value, place: Place, labels: seq<string>)
    requires WellFormed(value) && At(value, place).Some?
    ensures PlaceOf(value, labels) == Some(place) <==> labels == Labels(value, place)
    decreases |place|
  {
    if labels == [] || place == [] {
      assert labels != [] && PlaceOf(value, labels).Some? ==> PlaceOf(value, labels).value != [];
    } else {
      var i, kid := place[0], Kids(value)[place[0]];
      assert place == [i] + place[1..];
      NamedByLabel(value, labels[0], i);
      PlacedByLabels(kid, place[1..], labels[1..]);
      assert labels == [labels[0]] + labels[1..];
      assert Labels(value, place)[1..] == Labels(kid, place[1..]);
    }
  }

  ghost predicate DotFree(labels: seq<string>) {
    forall i :: 0 <= i < |labels| ==> DOT !in labels[i]
  }

  /** Joining by the source's rule: the dot is left out while the path so far is empty. */
  function JoinLabels(path: string, labels: seq<string>): string
    decreases |labels|
  {
    if labels == [] then path else JoinLabels(ExtendPath(path, labels[0]), labels[1..])
  }

  lemma {:induction false} PathIsJoin(value: Value, place: Place, path: string)
    requires At(value, place).Some?
    ensures PathTo(value, place, path) == JoinLabels(path, Labels(value, place))
    decreases |place|
  {
    if place != [] {
      PathIsJoin(Kids(value)[place[0]], place[1..], ExtendPath(path, Label(value, place[0])));
      assert Labels(value, place)[1..] == Labels(Kids(value)[place[0]], place[1..]);
    }
  }

  lemma {:induction false} SplitSnoc(path: string, name: string)
    requires DOT !in name
    ensures Split(path + [DOT] + name, DOT) == Split(path, DOT) + [name]
    decreases |path|
  {
    var whole := path + [DOT] + name;
    if path == "" {
      SplitIsFree(name, DOT);
      assert whole[1..] == name;
    } else {
      SplitSnoc(path[1..], name);
      assert whole[1..] == path[1..] + [DOT] + name;
    }
  }

  lemma {:induction false} SplitJoined(path: string, labels: seq<string>)
    requires path != "" && DotFree(labels)
    ensures Split(JoinLabels(path, labels), DOT) == Split(path, DOT) + labels
    decreases |labels|
  {
    if labels != [] {
      SplitSnoc(path, labels[0]);
      SplitJoined(ExtendPath(path, labels[0]), labels[1..]);
      assert Split(path, DOT) + labels == (Split(path, DOT) + [labels[0]]) + labels[1..];
    } else {
      assert Split(path, DOT) + labels == Split(path, DOT);
    }
  }

  /** An empty label in front leaves no mark in the path. */
  lemma {:induction false} LeadingEmptyLabelLost(labels: seq<string>)
    requires |labels| >= 2 && labels[0] == "" && DotFree(labels)
    ensures |Split(JoinLabels("", labels), DOT)| < |labels|
    decreases |labels|
  {
    var rest := labels[1..];
    assert JoinLabels("", labels) == JoinLabels("", rest);
    if rest[0] != "" {
      SplitJoined(rest[0], rest[1..]);
      SplitIsFree(rest[0], DOT);
      assert JoinLabels("", rest) == JoinLabels(rest[0], rest[1..]);
    } else if |rest| >= 2 {
      LeadingEmptyLabelLost(rest);
    } else {
      assert JoinLabels("", rest) == "";
    }
  }

  /**
    The exact condition under which splitting a reported path at its dots gives back the
    labels: no label holds a dot, and the first one is not empty unless it is alone.
   */
  lemma {:induction false} PathSplitsToLabels(labels: seq<string>)
    requires labels != []
    ensures Split(JoinLabels("", labels), DOT) == labels <==>
            DotFree(labels) && (labels[0] != "" || |labels| == 1)
  {
    SplitIsFree(JoinLabels("", labels), DOT);
    if DotFree(labels) {
      if labels[0] != "" {
        SplitJoined(labels[0], labels[1..]);
        SplitIsFree(labels[0], DOT);
        assert labels == [labels[0]] + labels[1..];
      } else if |labels| == 1 {
        assert JoinLabels("", labels) == "" && labels == [""];
      } else {
        LeadingEmptyLabelLost(labels);
      }
    }
  }

  /**
    A reported path, split at its dots, leads back to the place it was reported for if and
    only if no key on the way holds a dot and the first key is not empty, unless it is alone.
   */
  lemma {:induction false} ReportedPathLeadsBack(patterns: seq<Pattern>, payload: Value, place: Place)
    requires payload.Object? && WellFormed(payload) && Suspicious(patterns, payload, place)
    ensures var labels := Labels(payload, place);
            && labels != []
            && (PlaceOf(payload, Split(PathTo(payload, place, ""), '.')) == Some(place) <==>
                (forall i :: 0 <= i < |labels| ==> '.' !in labels[i]) && (labels[0] != "" || |labels| == 1))
  {
    assert place != [];
    PathIsJoin(payload, place, "");
    PathSplitsToLabels(Labels(payload, place));
    PlacedByLabels(payload, place, Split(PathTo(payload, place, ""), DOT));
  }

  /** With a dot in its key a suspicious leaf can be reported under a path that leads nowhere. */
  lemma {:induction false} DottedKeyLosesLeaf(patterns: seq<Pattern>, key: string, text: string)
    requires '.' in key && Utf8Length(text) > 10 && exists i :: 0 <= i < |patterns| && patterns[i](text)
    ensures var payload := Object([Member(key, Str(text))]);
            && Suspicious(patterns, payload, [0])
            && PathTo(payload, [0], "") == key
            && PlaceOf(payload, Split(key, '.')) == None
  {
    var payload := Object([Member(key, Str(text))]);
    assert [0 as nat][1..] == [];
    assert At(Kids(payload)[0], []) == Some(Str(text));
    var first := Split(key, DOT)[0];
    SplitIsFree(key, DOT);
    assert first in Split(key, DOT) && first != key;
    assert payload.members[1..] == [] && KeyIndex(payload.members, first) == None;
  }
}
