/** JSON pointers (section 4 of RFC 6901) against the places of a document. */
module PointerLaws {
  import opened Wrappers
  import opened Text
  import opened Json
  import opened Sanitize

  /** A reference token: `~` is written `~0`, and `/` is written `~1`. */
  function Escape(s: string): string {
    if s == "" then ""
    else (if s[0] == '~' then "~0" else if s[0] == '/' then "~1" else [s[0]]) + Escape(s[1..])
  }

  /** Half way back: slashes restored, tildes still escaped. */
  function HalfEscape(s: string): string {
    if s == "" then "" else (if s[0] == '~' then "~0" else [s[0]]) + HalfEscape(s[1..])
  }

  lemma {:induction false} SlashesBack(s: string)
    ensures Replace(Escape(s), '1', '/') == HalfEscape(s)
  {
    if s != "" {
      SlashesBack(s[1..]);
      var e, rest := Escape(s), Escape(s[1..]);
      if s[0] == '~' {
        assert e[1..] == ['0'] + rest && (['0'] + rest)[1..] == rest;
        assert Replace(['0'] + rest, '1', '/') == ['0'] + Replace(rest, '1', '/');
      } else if s[0] == '/' {
        assert e[2..] == rest;
      } else {
        assert e[1..] == rest;
      }
    }
  }

  lemma {:induction false} TildesBack(s: string)
    ensures Replace(HalfEscape(s), '0', '~') == s
  {
    if s != "" {
      TildesBack(s[1..]);
      var h, rest := HalfEscape(s), HalfEscape(s[1..]);
      if s[0] == '~' {
        assert h[2..] == rest;
      } else {
        assert h[1..] == rest;
      }
    }
  }

  lemma {:induction false} UnescapeEscape(s: string)
    ensures Unescape(Escape(s)) == s
  {
    SlashesBack(s);
    TildesBack(s);
  }

  lemma {:induction false} EscapeHidesSlashes(s: string)
    ensures '/' !in Escape(s)
  {
    if s != "" {
      EscapeHidesSlashes(s[1..]);
    }
  }

  function EscapeAll(labels: seq<string>): (tokens: seq<string>)
    ensures |tokens| == |labels| && forall i :: 0 <= i < |tokens| ==> tokens[i] == Escape(labels[i])
  {
    seq(|labels|, i requires 0 <= i < |labels| => Escape(labels[i]))
  }

  /** The pointer that names these labels: a slash before each escaped label. */
  function PointerTo(labels: seq<string>): string {
    if labels == [] then "" else "/" + Join(EscapeAll(labels), '/')
  }

  function Reached(value: Value, place: Option<Place>): Option<Value> {
    if place.Some? then At(value, place.value) else None
  }

  lemma {:induction false} FindsKeyIndex(members: seq<Member>, key: string)
    ensures Find(members, key) ==
            match KeyIndex(members, key) case Some(i) => Some(members[i].value) case None => None
  {
    if members != [] && members[0].key != key {
      FindsKeyIndex(members[1..], key);
    }
  }

  /** A step by label leads to the child of that name. */
  lemma {:induction false} StepFindsChild(value: Value, name: string)
    ensures Step(value, name) ==
            match ChildNamed(value, name) case Some(i) => Some(Kids(value)[i]) case None => None
  {
    if value.Object? {
      FindsKeyIndex(value.members, name);
    }
  }

  lemma {:induction false} FollowReaches(value: Value, labels: seq<string>)
    ensures Follow(value, EscapeAll(labels)) == Reached(value, PlaceOf(value, labels))
    decreases |labels|
  {
    if labels != [] {
      UnescapeEscape(labels[0]);
      StepFindsChild(value, labels[0]);
      assert EscapeAll(labels)[1..] == EscapeAll(labels[1..]);
      var child := ChildNamed(value, labels[0]);
      if child.Some? {
        var kid := Kids(value)[child.value];
        FollowReaches(kid, labels[1..]);
        var rest := PlaceOf(kid, labels[1..]);
        if rest.Some? {
          assert ([child.value] + rest.value)[1..] == rest.value;
        }
      }
    }
  }

  lemma {:induction false} PointerSplits(labels: seq<string>)
    requires labels != []
    ensures Split(PointerTo(labels), '/')[1..] == EscapeAll(labels)
  {
    var tokens := EscapeAll(labels);
    forall t | t in tokens
      ensures '/' !in t
    {
      var i :| 0 <= i < |tokens| && tokens[i] == t;
      EscapeHidesSlashes(labels[i]);
    }
    SplitJoin(tokens, '/');
    assert PointerTo(labels)[1..] == Join(tokens, '/');
  }

  /** A pointer with escaped labels finds exactly what stands at the place those labels lead to. */
  lemma {:induction false} PointerReaches(value: Value, labels: seq<string>)
    ensures Pointer(value, PointerTo(labels)) == Reached(value, PlaceOf(value, labels))
  {
    if labels != [] {
      PointerSplits(labels);
      FollowReaches(value, labels);
    }
  }

  /** Every place of a well-formed document has a pointer. */
  lemma {:induction false} EveryPlaceHasPointer(value: Value, place: Place)
    requires WellFormed(value) && At(value, place).Some?
    ensures Pointer(value, PointerTo(Labels(value, place))) == At(value, place)
  {
    PlacedByLabels(value, place, Labels(value, place));
    PointerReaches(value, Labels(value, place));
  }
}
