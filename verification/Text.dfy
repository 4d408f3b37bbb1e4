/**
  The part of Rust's `str` that the pipeline relies on: trimming, prefix and suffix
  tests, splitting on one character and UTF-8 lengths. A string is a sequence of
  Unicode scalar values; every slice the source takes falls on a scalar boundary, so
  nothing is lost by leaving bytes out.
 */
module Text {

  /** The Unicode White_Space property, which `str::trim` strips. */
  predicate IsWhitespace(c: char) {
    || '\U{0009}' <= c <= '\U{000D}'
    || c == ' '
    || c == '\U{0085}'
    || c == '\U{00A0}'
    || c == '\U{1680}'
    || '\U{2000}' <= c <= '\U{200A}'
    || c == '\U{2028}'
    || c == '\U{2029}'
    || c == '\U{202F}'
    || c == '\U{205F}'
    || c == '\U{3000}'
  }

  function TrimStart(s: string): string {
    if s != "" && IsWhitespace(s[0]) then TrimStart(s[1..]) else s
  }

  function TrimEnd(s: string): string {
    if s != "" && IsWhitespace(s[|s| - 1]) then TrimEnd(s[..|s| - 1]) else s
  }

  function Trim(s: string): string {
    TrimEnd(TrimStart(s))
  }

  predicate StartsWith(s: string, prefix: string) {
    |prefix| <= |s| && s[..|prefix|] == prefix
  }

  predicate EndsWith(s: string, suffix: string) {
    |suffix| <= |s| && s[|s| - |suffix|..] == suffix
  }

  /** `needle` occurs in `s` at position `k`. */
  predicate OccursAt(s: string, needle: string, k: nat) {
    k + |needle| <= |s| && s[k..k + |needle|] == needle
  }

  /** `str::split` on one character: n separators give n + 1 parts. */
  function Split(s: string, separator: char): (parts: seq<string>)
    ensures |parts| >= 1
  {
    if s == "" then [""]
    else
      var rest := Split(s[1..], separator);
      if s[0] == separator then [""] + rest else [[s[0]] + rest[0]] + rest[1..]
  }

  function Join(parts: seq<string>, separator: char): string
    requires |parts| >= 1
  {
    if |parts| == 1 then parts[0] else parts[0] + [separator] + Join(parts[1..], separator)
  }

  function NonEmpty(parts: seq<string>): (r: seq<string>)
    ensures forall p :: p in r ==> p != ""
  {
    if parts == [] then []
    else if parts[0] == "" then NonEmpty(parts[1..])
    else [parts[0]] + NonEmpty(parts[1..])
  }

  /** The order of strings, which sorted maps and sets iterate in. */
  predicate Less(a: string, b: string) {
    b != "" && (a == "" || a[0] < b[0] || (a[0] == b[0] && Less(a[1..], b[1..])))
  }

  /** Insert into a sorted set of strings, kept as its iteration order. */
  function InsertSorted(names: seq<string>, name: string): (r: seq<string>)
    ensures forall x :: x in r <==> x in names || x == name
  {
    if names == [] then [name]
    else if names[0] == name then names
    else if Less(name, names[0]) then [name] + names
    else [names[0]] + InsertSorted(names[1..], name)
  }

  function Utf8Width(c: char): nat {
    var code := c as int;
    if code < 0x80 then 1 else if code < 0x800 then 2 else if code < 0x10000 then 3 else 4
  }

  /** `str::len`, which counts bytes. */
  function Utf8Length(s: string): nat {
    if s == "" then 0 else Utf8Width(s[0]) + Utf8Length(s[1..])
  }

  lemma {:induction false} TrimStartIsSuffix(s: string)
    ensures |TrimStart(s)| <= |s| && TrimStart(s) == s[|s| - |TrimStart(s)|..]
    ensures TrimStart(s) != "" ==> !IsWhitespace(TrimStart(s)[0])
  {
    if s != "" && IsWhitespace(s[0]) {
      TrimStartIsSuffix(s[1..]);
    }
  }

  lemma {:induction false} TrimEndIsPrefix(s: string)
    ensures |TrimEnd(s)| <= |s| && TrimEnd(s) == s[..|TrimEnd(s)|]
    ensures TrimEnd(s) != "" ==> !IsWhitespace(TrimEnd(s)[|TrimEnd(s)| - 1])
  {
    if s != "" && IsWhitespace(s[|s| - 1]) {
      TrimEndIsPrefix(s[..|s| - 1]);
    }
  }

  /** Trimming a trimmed string changes nothing. */
  lemma {:induction false} TrimIdempotent(s: string)
    ensures Trim(Trim(s)) == Trim(s)
  {
    TrimStartIsSuffix(s);
    TrimEndIsPrefix(TrimStart(s));
  }

  /** No part of a split holds the separator, and without one the string is its only part. */
  lemma {:induction false} SplitIsFree(s: string, separator: char)
    ensures forall p :: p in Split(s, separator) ==> separator !in p
    ensures separator !in s ==> Split(s, separator) == [s]
  {
    if s != "" {
      SplitIsFree(s[1..], separator);
      assert s == [s[0]] + s[1..];
    }
  }

  ghost predicate Distinct(names: seq<string>) {
    forall i, j :: 0 <= i < j < |names| ==> names[i] != names[j]
  }

  /** A part without separators in front of a string becomes the head of its first part. */
  lemma {:induction false} SplitFreePrefix(part: string, s: string, separator: char)
    requires separator !in part
    ensures Split(part + s, separator) == [part + Split(s, separator)[0]] + Split(s, separator)[1..]
  {
    if part == "" {
      assert part + s == s && part + Split(s, separator)[0] == Split(s, separator)[0];
    } else {
      SplitFreePrefix(part[1..], s, separator);
      assert (part + s)[1..] == part[1..] + s;
      assert [part[0]] + (part[1..] + Split(s, separator)[0]) == part + Split(s, separator)[0];
    }
  }

  lemma {:induction false} SplitJoin(parts: seq<string>, separator: char)
    requires |parts| >= 1 && forall p :: p in parts ==> separator !in p
    ensures Split(Join(parts, separator), separator) == parts
  {
    if |parts| == 1 {
      SplitFreePrefix(parts[0], "", separator);
      assert parts[0] + "" == parts[0];
    } else {
      var rest := Join(parts[1..], separator);
      SplitJoin(parts[1..], separator);
      var tail := [separator] + rest;
      assert tail[1..] == rest && Split(tail, separator) == [""] + parts[1..];
      SplitFreePrefix(parts[0], tail, separator);
      assert Join(parts, separator) == parts[0] + tail;
      assert parts[0] + Split(tail, separator)[0] == parts[0];
      assert parts == [parts[0]] + parts[1..];
    }
  }

  /** Trimming takes blanks off both ends and nothing else. */
  lemma {:induction false} TrimExact(s: string) returns (lead: string, trail: string)
    ensures s == lead + Trim(s) + trail
    ensures forall c :: c in lead || c in trail ==> IsWhitespace(c)
    ensures Trim(s) != "" ==> !IsWhitespace(Trim(s)[0]) && !IsWhitespace(Trim(s)[|Trim(s)| - 1])
  {
    lead := LeadingBlanks(s);
    trail := TrailingBlanks(TrimStart(s));
    TrimStartIsSuffix(s);
    TrimEndIsPrefix(TrimStart(s));
  }

  lemma {:induction false} LeadingBlanks(s: string) returns (lead: string)
    ensures s == lead + TrimStart(s) && forall c :: c in lead ==> IsWhitespace(c)
  {
    lead := "";
    if s != "" && IsWhitespace(s[0]) {
      var rest := LeadingBlanks(s[1..]);
      lead := [s[0]] + rest;
    }
  }

  lemma {:induction false} TrailingBlanks(s: string) returns (trail: string)
    ensures s == TrimEnd(s) + trail && forall c :: c in trail ==> IsWhitespace(c)
  {
    trail := "";
    if s != "" && IsWhitespace(s[|s| - 1]) {
      var rest := TrailingBlanks(s[..|s| - 1]);
      trail := rest + [s[|s| - 1]];
    }
  }

  // ----- Sorted sets -----

  lemma {:induction false} LessTransitive(a: string, b: string, c: string)
    requires Less(a, b) && Less(b, c)
    ensures Less(a, c)
  {
    if a != "" && a[0] == b[0] == c[0] {
      LessTransitive(a[1..], b[1..], c[1..]);
    }
  }

  lemma {:induction false} LessTotal(a: string, b: string)
    ensures Less(a, b) || a == b || Less(b, a)
  {
    if a != "" && b != "" && a[0] == b[0] {
      LessTotal(a[1..], b[1..]);
      assert a == [a[0]] + a[1..] && b == [b[0]] + b[1..];
    }
  }

  ghost predicate Sorted(names: seq<string>) {
    forall i, j :: 0 <= i < j < |names| ==> Less(names[i], names[j])
  }

  /** Inserting keeps a set's names strictly ascending. */
  lemma {:induction false} InsertKeepsSorted(names: seq<string>, name: string)
    requires Sorted(names)
    ensures Sorted(InsertSorted(names, name))
  {
    if names != [] && names[0] != name {
      var rest := names[1..];
      if Less(name, names[0]) {
        forall x | x in names
          ensures Less(name, x)
        {
          if x != names[0] {
            var j :| 0 < j < |names| && names[j] == x;
            LessTransitive(name, names[0], x);
          }
        }
        SortedCons(name, names);
      } else {
        LessTotal(name, names[0]);
        assert forall i, j :: 0 <= i < j < |rest| ==> rest[i] == names[i + 1] && rest[j] == names[j + 1];
        InsertKeepsSorted(rest, name);
        assert forall x :: x in rest ==> exists j :: 0 < j < |names| && names[j] == x;
        SortedCons(names[0], InsertSorted(rest, name));
      }
    }
  }

  lemma {:induction false} SortedCons(first: string, rest: seq<string>)
    requires Sorted(rest) && forall x :: x in rest ==> Less(first, x)
    ensures Sorted([first] + rest)
  {
    var all := [first] + rest;
    forall i, j | 0 <= i < j < |all|
      ensures Less(all[i], all[j])
    {
      assert all[j] == rest[j - 1] && rest[j - 1] in rest;
      if i > 0 {
        assert all[i] == rest[i - 1];
      }
    }
  }

  /** A character takes as many bytes as its code needs: seven bits, eleven, sixteen, or more. */
  lemma {:induction false} Utf8WidthExact(c: char)
    ensures Utf8Width(c) == 1 <==> (c as int) / 128 == 0
    ensures Utf8Width(c) <= 2 <==> (c as int) / 2048 == 0
    ensures Utf8Width(c) <= 3 <==> (c as int) / 65536 == 0
    ensures 1 <= Utf8Width(c) <= 4
  {}

  lemma {:induction false} Utf8LengthConcat(a: string, b: string)
    ensures Utf8Length(a + b) == Utf8Length(a) + Utf8Length(b)
  {
    if a == "" {
      assert a + b == b;
    } else {
      Utf8LengthConcat(a[1..], b);
      assert (a + b)[1..] == a[1..] + b;
    }
  }
}
