/**
  The route matcher `wildcard_matches` (the serve and smash copies are identical),
  proved equal to the declarative glob language in which every `*` stands for any
  string.
 */
module Glob {
  import opened Wrappers
  import opened Text

  const STAR := '*'

  /** The glob language: `*` is any string, every other character is itself. */
  ghost predicate InLanguage(pattern: string, value: string)
    decreases |pattern|
  {
    if pattern == "" then value == ""
    else if pattern[0] == STAR then
      exists k :: 0 <= k <= |value| && InLanguage(pattern[1..], value[k..])
    else
      value != "" && value[0] == pattern[0] && InLanguage(pattern[1..], value[1..])
  }

  /** What routing means by "the pattern matches": an all-blank pattern matches nothing. */
  ghost predicate Matches(pattern: string, value: string) {
    Trim(pattern) != "" && InLanguage(Trim(pattern), value)
  }

  // ----- The pattern cut at its stars -----

  /** `value` is the parts in order, with arbitrary text between consecutive parts. */
  ghost predicate PartsMatch(parts: seq<string>, value: string)
    requires |parts| >= 1
    decreases |parts|
  {
    if |parts| == 1 then value == parts[0]
    else
      && StartsWith(value, parts[0])
      && exists k :: |parts[0]| <= k <= |value| && PartsMatch(parts[1..], value[k..])
  }

  /** The parts match after skipping some leading text, as they may once a star was seen. */
  ghost predicate PartsFloat(parts: seq<string>, value: string)
    requires |parts| >= 1
  {
    exists k :: 0 <= k <= |value| && PartsMatch(parts, value[k..])
  }

  /**
    The non-empty segments occur in order without overlap, anywhere in `value`;
    with `anchored` the last one ends `value`.
   */
  ghost predicate Floating(segments: seq<string>, value: string, anchored: bool)
    requires anchored ==> segments != []
    decreases |segments|
  {
    if segments == [] then true
    else if |segments| == 1 && anchored then EndsWith(value, segments[0])
    else
      exists k: nat :: OccursAt(value, segments[0], k)
                       && Floating(segments[1..], value[k + |segments[0]|..], anchored)
  }

  lemma {:induction false} LanguageIsParts(pattern: string, value: string)
    ensures InLanguage(pattern, value) <==> PartsMatch(Split(pattern, STAR), value)
    decreases |pattern|
  {
    if pattern == "" {
    } else {
      var rest := Split(pattern[1..], STAR);
      var parts := Split(pattern, STAR);
      if pattern[0] == STAR {
        assert parts[1..] == rest;
        forall k | 0 <= k <= |value|
          ensures InLanguage(pattern[1..], value[k..]) <==> PartsMatch(rest, value[k..])
        {
          LanguageIsParts(pattern[1..], value[k..]);
        }
      } else {
        if value != "" {
          LanguageIsParts(pattern[1..], value[1..]);
        }
        PartsPeel(pattern[0], rest, value);
      }
    }
  }

  /** A leading ordinary character of the first part is matched by the first character. */
  lemma {:induction false} PartsPeel(c: char, rest: seq<string>, value: string)
    requires |rest| >= 1
    ensures PartsMatch([[c] + rest[0]] + rest[1..], value) <==>
            value != "" && value[0] == c && PartsMatch(rest, value[1..])
  {
    var parts := [[c] + rest[0]] + rest[1..];
    assert parts[1..] == rest[1..];
    if |rest| == 1 {
      assert parts[0] == [c] + rest[0];
      if value != "" { assert value == [value[0]] + value[1..]; }
    } else {
      if PartsMatch(parts, value) {
        var k :| |parts[0]| <= k <= |value| && PartsMatch(parts[1..], value[k..]);
        assert value[..|parts[0]|] == [c] + rest[0];
        assert value[0] == c;
        assert value[1..][..|rest[0]|] == value[..|parts[0]|][1..];
        assert value[1..][k - 1..] == value[k..];
      }
      if value != "" && value[0] == c && PartsMatch(rest, value[1..]) {
        var k :| |rest[0]| <= k <= |value[1..]| && PartsMatch(rest[1..], value[1..][k..]);
        assert value[1..][k..] == value[k + 1..];
        assert value[..|parts[0]|] == [c] + value[1..][..|rest[0]|];
      }
    }
  }

  /** After a star only the non-empty parts constrain the rest of the value. */
  lemma {:induction false} PartsAreFloating(parts: seq<string>, value: string)
    requires |parts| >= 1
    ensures parts[|parts| - 1] != "" ==> NonEmpty(parts) != []
    ensures PartsFloat(parts, value) <==>
            Floating(NonEmpty(parts), value, parts[|parts| - 1] != "")
    decreases |parts|, 2
  {
    if |parts| == 1 {
      assert NonEmpty(parts[1..]) == [];
      if parts[0] == "" {
        assert value[|value|..] == "";
      } else {
        assert NonEmpty(parts) == [parts[0]];
        if EndsWith(value, parts[0]) {
          assert PartsMatch(parts, value[|value| - |parts[0]|..]);
        }
      }
    } else if parts[0] == "" {
      PartsAreFloating(parts[1..], value);
      EmptyPart(parts, value);
    } else {
      FloatingPart(parts, value);
    }
  }

  lemma {:induction false} EmptyPart(parts: seq<string>, value: string)
    requires |parts| >= 2 && parts[0] == ""
    ensures PartsFloat(parts, value) <==>
            PartsFloat(parts[1..], value)
  {
    if k :| 0 <= k <= |value| && PartsMatch(parts, value[k..]) {
      var j :| 0 <= j <= |value[k..]| && PartsMatch(parts[1..], value[k..][j..]);
      assert value[k..][j..] == value[k + j..];
    }
    if k :| 0 <= k <= |value| && PartsMatch(parts[1..], value[k..]) {
      assert value[k..][0..] == value[k..];
      assert PartsMatch(parts, value[k..]);
    }
  }

  lemma {:induction false} FloatingPart(parts: seq<string>, value: string)
    requires |parts| >= 2 && parts[0] != ""
    ensures parts[|parts| - 1] != "" ==> NonEmpty(parts) != []
    ensures PartsFloat(parts, value) <==>
            Floating(NonEmpty(parts), value, parts[|parts| - 1] != "")
    decreases |parts|, 1
  {
    var segments := NonEmpty(parts);
    assert segments == [parts[0]] + NonEmpty(parts[1..]) && segments[1..] == NonEmpty(parts[1..]);
    var anchored := parts[|parts| - 1] != "";
    PartsAreFloating(parts[1..], "");
    if k :| 0 <= k <= |value| && PartsMatch(parts, value[k..]) {
      FloatingPartAt(parts, value, k);
    }
    if Floating(segments, value, anchored) {
      var k: nat :| OccursAt(value, segments[0], k)
                    && Floating(segments[1..], value[k + |parts[0]|..], anchored);
      FloatingPartAt(parts, value, k);
    }
  }

  /** The parts match from position `k` exactly when the first one is there and the segments float after it. */
  lemma {:induction false} FloatingPartAt(parts: seq<string>, value: string, k: nat)
    requires |parts| >= 2 && k <= |value|
    requires parts[|parts| - 1] != "" ==> NonEmpty(parts[1..]) != []
    ensures PartsMatch(parts, value[k..]) <==>
            OccursAt(value, parts[0], k)
            && Floating(NonEmpty(parts[1..]), value[k + |parts[0]|..], parts[|parts| - 1] != "")
    decreases |parts|, 0
  {
    PlacePart(parts, value, k);
    if k + |parts[0]| <= |value| {
      PartsAreFloating(parts[1..], value[k + |parts[0]|..]);
    }
  }

  /** Matching the parts at position `k` is placing the first one there and the rest after it. */
  lemma {:induction false} PlacePart(parts: seq<string>, value: string, k: nat)
    requires |parts| >= 2 && k <= |value|
    ensures PartsMatch(parts, value[k..]) <==>
            OccursAt(value, parts[0], k) && PartsFloat(parts[1..], value[k + |parts[0]|..])
  {
    var n, here := |parts[0]|, value[k..];
    if n <= |here| {
      FirstPart(parts, here);
      assert here[..n] == value[k..k + n];
      assert here[n..] == value[k + n..];
    }
  }

  lemma {:induction false} FirstPart(parts: seq<string>, value: string)
    requires |parts| >= 2 && |parts[0]| <= |value|
    ensures PartsMatch(parts, value) <==>
            StartsWith(value, parts[0]) && PartsFloat(parts[1..], value[|parts[0]|..])
  {
    var n, rest := |parts[0]|, value[|parts[0]|..];
    if PartsMatch(parts, value) {
      var j :| n <= j <= |value| && PartsMatch(parts[1..], value[j..]);
      assert value[j..] == rest[j - n..];
    }
    if PartsFloat(parts[1..], rest) {
      var j :| 0 <= j <= |rest| && PartsMatch(parts[1..], rest[j..]);
      assert value[n + j..] == rest[j..];
    }
  }

  /** Everything the scan needs to know about a pattern that contains a star. */
  lemma {:induction false} LanguageIsFloating(pattern: string, value: string)
    requires STAR in pattern
    ensures var parts := Split(pattern, STAR);
            var anchored := parts[|parts| - 1] != "";
            && |parts| >= 2
            && (anchored ==> NonEmpty(parts[1..]) != [])
            && (InLanguage(pattern, value) <==>
                StartsWith(value, parts[0])
                && Floating(NonEmpty(parts[1..]), value[|parts[0]|..], anchored))
  {
    var parts := Split(pattern, STAR);
    SplitShape(pattern);
    LanguageIsParts(pattern, value);
    PartsAreFloating(parts[1..], "");
    if |parts[0]| <= |value| {
      FirstPart(parts, value);
      PartsAreFloating(parts[1..], value[|parts[0]|..]);
    }
  }

  /** The first and last parts tell whether the pattern starts or ends with a star. */
  lemma {:induction false} SplitShape(pattern: string)
    ensures var parts := Split(pattern, STAR);
            && (|parts| == 1 <==> STAR !in pattern)
            && (|parts| == 1 ==> parts[0] == pattern)
            && (parts[0] == "" <==> pattern == "" || pattern[0] == STAR)
            && (parts[|parts| - 1] == "" <==> pattern == "" || pattern[|pattern| - 1] == STAR)
    decreases |pattern|
  {
    if pattern != "" {
      SplitShape(pattern[1..]);
    }
  }

  // ----- The exchange argument behind the greedy scan -----

  /** Dropping text in front never helps a floating match. */
  lemma {:induction false} FloatingExtends(segments: seq<string>, value: string, j: nat, anchored: bool)
    requires anchored ==> segments != []
    requires j <= |value| && Floating(segments, value[j..], anchored)
    ensures Floating(segments, value, anchored)
  {
    if segments == [] {
    } else if |segments| == 1 && anchored {
      var n := |segments[0]|;
      assert value[j..][|value| - j - n..] == value[|value| - n..];
    } else {
      var n := |segments[0]|;
      var k: nat :| OccursAt(value[j..], segments[0], k)
                    && Floating(segments[1..], value[j..][k + n..], anchored);
      assert value[j..][k + n..] == value[j + k + n..];
      assert value[j..][k..k + n] == value[j + k..j + k + n];
      assert OccursAt(value, segments[0], j + k);
    }
  }

  /** Taking the leftmost occurrence of the next segment loses no match. */
  lemma {:induction false} LeftmostIsBest(segments: seq<string>, value: string, p: nat, anchored: bool)
    requires segments != [] && !(|segments| == 1 && anchored)
    requires OccursAt(value, segments[0], p)
    requires forall k: nat :: k < p ==> !OccursAt(value, segments[0], k)
    ensures Floating(segments, value, anchored) <==>
            Floating(segments[1..], value[p + |segments[0]|..], anchored)
  {
    var n := |segments[0]|;
    if Floating(segments, value, anchored) {
      var k: nat :| OccursAt(value, segments[0], k)
                    && Floating(segments[1..], value[k + n..], anchored);
      assert value[k + n..] == value[p + n..][k - p..];
      FloatingExtends(segments[1..], value[p + n..], k - p, anchored);
    }
  }

  // ----- The source's loop -----

  /** `str::find`: the leftmost occurrence of `needle`. */
  method Find(value: string, needle: string) returns (position: Option<nat>)
    ensures position.Some? ==>
              && OccursAt(value, needle, position.value)
              && forall k: nat :: k < position.value ==> !OccursAt(value, needle, k)
    ensures position.None? ==> forall k: nat :: !OccursAt(value, needle, k)
  {
    var i := 0;
    while i + |needle| <= |value|
      invariant forall k: nat :: k < i ==> !OccursAt(value, needle, k)
    {
      if value[i..i + |needle|] == needle {
        return Some(i);
      }
      i := i + 1;
    }
    return None;
  }

  /** The source's loop over the segments, with its anchors at either end. */
  method Scan(segments: seq<string>, value: string, requiresPrefix: bool, requiresSuffix: bool)
    returns (matched: bool)
    requires segments != [] && (requiresPrefix && requiresSuffix ==> |segments| >= 2)
    ensures matched <==>
            if requiresPrefix then
              && StartsWith(value, segments[0])
              && Floating(segments[1..], value[|segments[0]|..], requiresSuffix)
            else Floating(segments, value, requiresSuffix)
  {
    var remainder, index := value, 0;
    ghost var expected :=
      if requiresPrefix then
        && StartsWith(value, segments[0])
        && Floating(segments[1..], value[|segments[0]|..], requiresSuffix)
      else Floating(segments, value, requiresSuffix);
    assert segments[0..] == segments;
    while index < |segments|
      invariant 0 <= index <= |segments|
      invariant requiresSuffix ==> index < |segments|
      invariant index == 0 ==> remainder == value
      invariant index > 0 || !requiresPrefix ==>
        (expected <==> Floating(segments[index..], remainder, requiresSuffix))
    {
      var segment := segments[index];
      if index == 0 && requiresPrefix {
        if !StartsWith(remainder, segment) {
          return false;
        }
        remainder := remainder[|segment|..];
        index := index + 1;
        continue;
      }
      if index == |segments| - 1 && requiresSuffix {
        return EndsWith(remainder, segment);
      }
      var position := Find(remainder, segment);
      match position {
        case Some(p) =>
          LeftmostIsBest(segments[index..], remainder, p, requiresSuffix);
          assert segments[index..][1..] == segments[index + 1..];
          remainder := remainder[p + |segment|..];
        case None =>
          return false;
      }
      index := index + 1;
    }
    return true;
  }

  /** The greedy scan decides exactly the glob language of the trimmed pattern. */
  method WildcardMatches(pattern: string, value: string) returns (matched: bool)
    ensures matched <==> Matches(pattern, value)
  {
    var normalized := Trim(pattern);
    if normalized == "" {
      return false;
    }
    SplitShape(normalized);
    if normalized == "*" {
      assert normalized[1..] == "" && value[|value|..] == "";
      assert InLanguage(normalized[1..], value[|value|..]);
      return true;
    }
    if STAR !in normalized {
      LanguageIsParts(normalized, value);
      return normalized == value;
    }

    var requiresPrefix := normalized[0] != STAR;
    var requiresSuffix := normalized[|normalized| - 1] != STAR;
    var parts := Split(normalized, STAR);
    var segments := NonEmpty(parts);
    LanguageIsFloating(normalized, value);
    if segments == [] {
      return true;
    }
    assert segments == if requiresPrefix then [parts[0]] + NonEmpty(parts[1..]) else NonEmpty(parts[1..]);
    matched := Scan(segments, value, requiresPrefix, requiresSuffix);
  }
}
